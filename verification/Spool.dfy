/** The shared storage budget for chunked content (smtpserver/spool.go).

All spools of one server live in a `SpoolManager`.  Each method below is one
critical section of the source, so an interleaving of any number of spools is a
sequence of calls, and `Valid` is what every interleaving keeps.
*/
module Spool {
  import opened Prelude

  datatype Options = Options(
    maxBytes: nat, maxMemoryBytes: nat, maxTotalBytes: nat, maxTotalMemoryBytes: nat, maxConcurrent: nat)

  datatype Error =
    | MessageTooLarge | TotalExhausted | MemoryExhausted | ConcurrentExhausted | SpoolClosed | StorageFailure

  /** Where a spool stands between two critical sections. */
  datatype Activity =
    | Idle
    | Wanting(p: string, memory: bool)    // about to reserve room for `p`
    | Evicting(p: string)                 // no memory left: about to move to a file
    | Granted(p: string, memory: bool)    // room reserved, octets not yet stored
    | Surplus(n: nat, memory: bool)       // a short write left `n` octets of room to give back
    | Closing(total: nat, resident: nat)  // closed, the manager not yet told
    | Released

  datatype Spool = Spool(
    memory: string, file: Option<string>, reserved: nat, reservedMemory: nat, closed: bool, activity: Activity) {
    function Content(): string { if file.Some? then file.value else memory }

    /** Octets of the shared budget this spool accounts for. */
    function Held(): nat {
      reserved + match activity
                 case Granted(p, _) => |p|
                 case Surplus(n, _) => n
                 case Closing(total, _) => total
                 case _ => 0
    }

    function HeldMemory(): nat {
      reservedMemory + match activity
                       case Granted(p, memory) => if memory then |p| else 0
                       case Surplus(n, memory) => if memory then n else 0
                       case Closing(_, resident) => resident
                       case _ => 0
    }

    function Live(): nat { if activity.Released? then 0 else 1 }

    ghost predicate Ok(o: Options) {
      && |Content()| <= o.maxBytes && |memory| <= o.maxMemoryBytes
      && (file.Some? ==> memory == [])
      && (closed <==> activity.Closing? || activity.Released?)
      && (if closed then reserved == 0 && reservedMemory == 0
          else reserved == |Content()| && reservedMemory == |memory|)
      && (match activity
          case Wanting(p, memory) => Fits(o, p, memory)
          case Granted(p, memory) => Fits(o, p, memory)
          case Evicting(p) => Fits(o, p, true)
          case Surplus(_, memory) => memory ==> file.None?
          case _ => true)
    }

    /** Storing `p` keeps the spool within its own limits. */
    ghost predicate Fits(o: Options, p: string, inMemory: bool) {
      && |Content()| + |p| <= o.maxBytes
      && (inMemory <==> file.None?)
      && (inMemory ==> |memory| + |p| <= o.maxMemoryBytes)
    }
  }

  // ----------------------------------------------------- sums over all spools

  function TotalHeld(s: seq<Spool>): nat {
    if s == [] then 0 else TotalHeld(s[..|s| - 1]) + s[|s| - 1].Held()
  }

  function TotalMemory(s: seq<Spool>): nat {
    if s == [] then 0 else TotalMemory(s[..|s| - 1]) + s[|s| - 1].HeldMemory()
  }

  function CountLive(s: seq<Spool>): nat {
    if s == [] then 0 else CountLive(s[..|s| - 1]) + s[|s| - 1].Live()
  }

  lemma {:induction false} SumsAfterUpdate(s: seq<Spool>, i: nat, x: Spool)
    requires i < |s|
    ensures TotalHeld(s[i := x]) == TotalHeld(s) - s[i].Held() + x.Held()
    ensures TotalMemory(s[i := x]) == TotalMemory(s) - s[i].HeldMemory() + x.HeldMemory()
    ensures CountLive(s[i := x]) == CountLive(s) - s[i].Live() + x.Live()
  {
    var n := |s| - 1;
    if i == n {
      assert s[i := x][..n] == s[..n];
    } else {
      SumsAfterUpdate(s[..n], i, x);
      assert s[i := x][..n] == s[..n][i := x];
    }
  }

  lemma SumsAfterAppend(s: seq<Spool>, x: Spool)
    ensures TotalHeld(s + [x]) == TotalHeld(s) + x.Held()
    ensures TotalMemory(s + [x]) == TotalMemory(s) + x.HeldMemory()
    ensures CountLive(s + [x]) == CountLive(s) + x.Live()
  {
    TakeMost(s, x);
  }

  lemma {:induction false} AllReleased(s: seq<Spool>, o: Options)
    requires forall i :: 0 <= i < |s| ==> s[i].Ok(o) && s[i].activity.Released?
    ensures TotalHeld(s) == 0 && TotalMemory(s) == 0 && CountLive(s) == 0
  {
    if s != [] {
      AllReleased(s[..|s| - 1], o);
    }
  }

  class SpoolManager {
    const options: Options
    var total: int
    var totalMemory: int
    var concurrent: int
    var spools: seq<Spool>

    /** The counters are the sums over all spools and stay within their maxima. */
    ghost predicate Valid()
      reads this
    {
      && (forall i :: 0 <= i < |spools| ==> spools[i].Ok(options))
      && total == TotalHeld(spools) <= options.maxTotalBytes
      && totalMemory == TotalMemory(spools) <= options.maxTotalMemoryBytes
      && concurrent == CountLive(spools) <= options.maxConcurrent
    }

    /** `n` more octets of this spool fit its own limit and the shared one. */
    ghost predicate HasRoom(id: nat, n: nat)
      requires id < |spools|
      reads this
    {
      |spools[id].Content()| + n <= options.maxBytes && total + n <= options.maxTotalBytes
    }

    constructor (options: Options)
      ensures Valid() && this.options == options && spools == []
    {
      this.options := options;
      total, totalMemory, concurrent, spools := 0, 0, 0, [];
    }

    method NewSpool() returns (id: Result<nat, Error>)
      requires Valid()
      modifies this
      ensures Valid()
      ensures if old(concurrent) >= options.maxConcurrent then id == Err(ConcurrentExhausted) && unchanged(this)
              else id == Ok(|old(spools)|) && spools == old(spools) + [Spool([], None, 0, 0, false, Idle)]
    {
      if concurrent >= options.maxConcurrent {
        return Err(ConcurrentExhausted);
      }
      var s := Spool([], None, 0, 0, false, Idle);
      SumsAfterAppend(spools, s);
      concurrent := concurrent + 1;
      spools := spools + [s];
      return Ok(|spools| - 1);
    }

    /** Puts back a spool once the counters have been moved to match it. */
    method Put(id: nat, s: Spool)
      requires id < |spools| && s.Ok(options) && forall i :: 0 <= i < |spools| ==> spools[i].Ok(options)
      requires total == TotalHeld(spools) - spools[id].Held() + s.Held() <= options.maxTotalBytes
      requires totalMemory ==
        TotalMemory(spools) - spools[id].HeldMemory() + s.HeldMemory() <= options.maxTotalMemoryBytes
      requires concurrent == CountLive(spools) - spools[id].Live() + s.Live() <= options.maxConcurrent
      modifies `spools
      ensures Valid() && spools == old(spools)[id := s]
    {
      SumsAfterUpdate(spools, id, s);
      spools := spools[id := s];
    }

    /** Checks the message limit and, when `p` would outgrow the memory share, spills to a file. */
    method BeginWrite(id: nat, p: string, spillOk: bool) returns (err: Option<Error>)
      requires Valid() && id < |spools| && (spools[id].activity.Idle? || spools[id].closed)
      modifies this
      ensures Valid() && total == old(total)
      ensures var s := old(spools)[id];
              if s.closed then err == Some(SpoolClosed) && unchanged(this)
              else if p == [] then err == None && unchanged(this)
              else if |p| > options.maxBytes - |s.Content()| then err == Some(MessageTooLarge) && unchanged(this)
              else
                var spill := s.file.None? && |s.Content()| + |p| > options.maxMemoryBytes;
                if spill && !spillOk then err == Some(StorageFailure) && unchanged(this)
                else
                  var next := if spill then Spilled(s) else s;
                  err == None && spools == old(spools)[id := next.(activity := Wanting(p, next.file.None?))]
    {
      var s := spools[id];
      if s.closed {
        return Some(SpoolClosed);
      }
      if |p| == 0 {
        return None;
      }
      if |p| > options.maxBytes - |s.Content()| {
        return Some(MessageTooLarge);
      }
      var next := s;
      if s.file.None? && |s.Content()| + |p| > options.maxMemoryBytes {
        if !spillOk {
          return Some(StorageFailure);
        }
        next := Spilled(s);
        totalMemory := totalMemory - s.reservedMemory;
      }
      next := next.(activity := Wanting(p, next.file.None?));
      Put(id, next);
      return None;
    }

    /** Takes room for the waiting octets out of the shared budget, or refuses. */
    method Reserve(id: nat) returns (err: Option<Error>)
      requires Valid() && id < |spools| && spools[id].activity.Wanting?
      modifies this
      ensures Valid() && total == old(total) + if err == None then |old(spools)[id].activity.p| else 0
      ensures var s := old(spools)[id];
              var w := s.activity;
              var next :=
                if |w.p| > options.maxTotalBytes - old(total) then Idle
                else if w.memory && |w.p| > options.maxTotalMemoryBytes - old(totalMemory) then Evicting(w.p)
                else Granted(w.p, w.memory);
              && spools == old(spools)[id := s.(activity := next)]
              && err == if next.Idle? then Some(TotalExhausted)
                        else if next.Evicting? then Some(MemoryExhausted) else None
    {
      var s := spools[id];
      var p, memory := s.activity.p, s.activity.memory;
      var share := if memory then |p| else 0;
      if |p| > options.maxTotalBytes - total {
        Put(id, s.(activity := Idle));
        return Some(TotalExhausted);
      }
      if share > options.maxTotalMemoryBytes - totalMemory {
        Put(id, s.(activity := Evicting(p)));
        return Some(MemoryExhausted);
      }
      total := total + |p|;
      totalMemory := totalMemory + share;
      Put(id, s.(activity := Granted(p, memory)));
      return None;
    }

    /** Shared memory is exhausted: the spool moves to a file and asks again. */
    method Evict(id: nat, spillOk: bool) returns (err: Option<Error>)
      requires Valid() && id < |spools| && spools[id].activity.Evicting?
      modifies this
      ensures Valid() && total == old(total)
      ensures var s := old(spools)[id];
              if spillOk then
                && err == None
                && spools == old(spools)[id := Spilled(s).(activity := Wanting(s.activity.p, false))]
              else err == Some(StorageFailure) && spools == old(spools)[id := s.(activity := Idle)]
    {
      var s := spools[id];
      if !spillOk {
        Put(id, s.(activity := Idle));
        return Some(StorageFailure);
      }
      totalMemory := totalMemory - s.reservedMemory;
      Put(id, Spilled(s).(activity := Wanting(s.activity.p, false)));
      return None;
    }

    /** Stores the first `n` octets; a file may take fewer than asked, memory never does. */
    method Store(id: nat, n: nat)
      requires Valid() && id < |spools| && spools[id].activity.Granted?
      requires n <= |spools[id].activity.p| && (spools[id].file.None? ==> n == |spools[id].activity.p|)
      modifies `spools
      ensures Valid() && spools == old(spools)[id := Stored(old(spools)[id], n)]
    {
      Put(id, Stored(spools[id], n));
    }

    /** Gives back the room that a short write did not use. */
    method ReturnSurplus(id: nat)
      requires Valid() && id < |spools| && spools[id].activity.Surplus?
      modifies this
      ensures Valid() && spools == old(spools)[id := old(spools)[id].(activity := Idle)]
      ensures total == old(total) - old(spools)[id].activity.n
    {
      var s := spools[id];
      total := total - s.activity.n;
      totalMemory := totalMemory - if s.activity.memory then s.activity.n else 0;
      Put(id, s.(activity := Idle));
    }

    /** Marks the spool closed and takes its counters; closing again does nothing. */
    method BeginClose(id: nat)
      requires Valid() && id < |spools| && (spools[id].activity.Idle? || spools[id].closed)
      modifies `spools
      ensures Valid()
      ensures var s := old(spools)[id];
              spools == if s.closed then old(spools)
                        else old(spools)[id := s.(reserved := 0, reservedMemory := 0, closed := true,
                                                  activity := Closing(s.reserved, s.reservedMemory))]
    {
      var s := spools[id];
      if s.closed {
        return;
      }
      var next := s.(reserved := 0, reservedMemory := 0, closed := true,
                     activity := Closing(s.reserved, s.reservedMemory));
      Put(id, next);
    }

    method FinishClose(id: nat)
      requires Valid() && id < |spools| && spools[id].activity.Closing?
      modifies this
      ensures Valid() && spools == old(spools)[id := old(spools)[id].(activity := Released)]
    {
      var s := spools[id];
      total := total - s.activity.total;
      totalMemory := totalMemory - s.activity.resident;
      concurrent := concurrent - 1;
      Put(id, s.(activity := Released));
    }

    /** Reserves again after moving the spool out of memory. */
    method ReserveOnFile(id: nat, spillOk: bool) returns (err: Option<Error>)
      requires Valid() && id < |spools| && spools[id].activity.Evicting?
      modifies this
      ensures Valid() && id < |spools| && spools == old(spools)[id := spools[id]]
      ensures Prepared(old(spools)[id], spools[id], old(spools)[id].activity.p, err)
      ensures total == old(total) + if err == None then |old(spools)[id].activity.p| else 0
      ensures spillOk && old(total) + |old(spools)[id].activity.p| <= options.maxTotalBytes ==> err == None
    {
      var p := spools[id].activity.p;
      err := Evict(id, spillOk);
      if err == None {
        err := Reserve(id);
      }
    }

    /** Reserves in memory if possible, otherwise on a file. */
    method Secure(id: nat, spillOk: bool) returns (err: Option<Error>)
      requires Valid() && id < |spools| && spools[id].activity.Wanting?
      modifies this
      ensures Valid() && id < |spools| && spools == old(spools)[id := spools[id]]
      ensures Prepared(old(spools)[id], spools[id], old(spools)[id].activity.p, err)
      ensures total == old(total) + if err == None then |old(spools)[id].activity.p| else 0
      ensures spillOk && old(total) + |old(spools)[id].activity.p| <= options.maxTotalBytes ==> err == None
    {
      err := Reserve(id);
      if err == Some(MemoryExhausted) {
        err := ReserveOnFile(id, spillOk);
      }
    }

    /** Gets room for `p`: the spool ends up granted, or idle with an error. */
    method Obtain(id: nat, p: string, spillOk: bool) returns (err: Option<Error>)
      requires Valid() && id < |spools| && spools[id].activity.Idle? && !spools[id].closed && p != []
      modifies this
      ensures Valid() && id < |spools| && spools == old(spools)[id := spools[id]]
      ensures Prepared(old(spools)[id], spools[id], p, err)
      ensures total == old(total) + if err == None then |p| else 0
      ensures spillOk && old(HasRoom(id, |p|)) ==> err == None
    {
      err := BeginWrite(id, p, spillOk);
      if err == None {
        err := Secure(id, spillOk);
      }
    }

    /** Stores as much of the granted octets as the storage takes. */
    method Fill(id: nat, p: string, short: Option<nat>) returns (n: nat, err: Option<Error>)
      requires Valid() && id < |spools| && spools[id].activity.Granted? && spools[id].activity.p == p
      modifies this
      ensures Valid() && id < |spools| && spools == old(spools)[id := spools[id]]
      ensures spools[id].activity.Idle? && spools[id].closed == old(spools)[id].closed
      ensures n <= |p| && (err == None <==> n == |p|) && (short == None ==> err == None)
      ensures spools[id].Content() == old(spools)[id].Content() + p[..n] && total == old(total) - (|p| - n)
    {
      n := if short.Some? && short.value < |p| && spools[id].file.Some? then short.value else |p|;
      Store(id, n);
      err := None;
      if n < |p| {
        ReturnSurplus(id);
        err := Some(StorageFailure);
      }
    }

    /** `Write` from its critical sections: on success all of `p` is stored, and on
        failure the prefix that reached storage is what was added. */
    method Write(id: nat, p: string, spillOk: bool, short: Option<nat>) returns (n: nat, err: Option<Error>)
      requires Valid() && id < |spools| && (spools[id].activity.Idle? || spools[id].closed)
      modifies this
      ensures Valid() && id < |spools| && spools == old(spools)[id := spools[id]]
      ensures old(spools)[id].closed ==> n == 0 && err == Some(SpoolClosed) && unchanged(this)
      ensures !old(spools)[id].closed ==>
                && spools[id].activity.Idle? && !spools[id].closed
                && n <= |p| && (err == None <==> n == |p|)
                && spools[id].Content() == old(spools)[id].Content() + p[..n] && total == old(total) + n
      ensures !old(spools)[id].closed && spillOk && short == None && old(HasRoom(id, |p|)) ==> err == None
    {
      if spools[id].closed {
        return 0, Some(SpoolClosed);
      }
      if p == [] {
        return 0, None;
      }
      n := 0;
      err := Obtain(id, p, spillOk);
      if err == None {
        n, err := Fill(id, p, short);
      }
    }
  }

  /** `s` became `next` while room for `p` was sought: granted, or idle with an error, content untouched. */
  ghost predicate Prepared(s: Spool, next: Spool, p: string, err: Option<Error>) {
    && next.Content() == s.Content() && next.closed == s.closed
    && if err == None then next.activity.Granted? && next.activity.p == p else next.activity.Idle?
  }

  /** Memory moved to a file: the content is the same, nothing stays resident. */
  function Spilled(s: Spool): (r: Spool)
    ensures s.file.None? ==> r.Content() == s.Content()
  {
    s.(file := Some(s.memory), memory := [], reservedMemory := 0)
  }

  function Stored(s: Spool, n: nat): (r: Spool)
    requires s.activity.Granted? && n <= |s.activity.p|
    ensures r.Content() == s.Content() + s.activity.p[..n]
  {
    var Granted(p, memory) := s.activity;
    var left := |p| - n;
    var kept := if s.file.Some? then s.(file := Some(s.file.value + p[..n])) else s.(memory := s.memory + p[..n]);
    kept.(reserved := s.reserved + n,
          reservedMemory := s.reservedMemory + (if memory then n else 0),
          activity := if left > 0 then Surplus(left, memory) else Idle)
  }

  /** One critical section of another session, on a spool of its own. */
  datatype Act =
    | Opens
    | Begins(id: nat, p: string, spillOk: bool)
    | Reserves(id: nat)
    | Evicts(id: nat, spillOk: bool)
    | Stores(id: nat, n: nat)
    | Returns(id: nat)
    | Closes(id: nat)
    | Releases(id: nat)

  /** Whether the other session is at the section it is to run. */
  predicate Due(act: Act, s: Spool) {
    match act
    case Opens => false
    case Begins(_, _, _) => s.activity.Idle? || s.closed
    case Reserves(_) => s.activity.Wanting?
    case Evicts(_, _) => s.activity.Evicting?
    case Stores(_, n) => s.activity.Granted? && n <= |s.activity.p| && (s.file.None? ==> n == |s.activity.p|)
    case Returns(_) => s.activity.Surplus?
    case Closes(_) => s.activity.Idle? || s.closed
    case Releases(_) => s.activity.Closing?
  }

  /** How many spools these acts may open. */
  function Opened(acts: seq<Act>): nat {
    if acts == [] then 0 else Opened(acts[..|acts| - 1]) + if acts[|acts| - 1].Opens? then 1 else 0
  }

  method OtherActs(m: SpoolManager, mine: set<nat>, act: Act)
    requires m.Valid() && forall i :: i in mine ==> i < |m.spools|
    modifies m
    ensures m.Valid() && |old(m.spools)| <= |m.spools| <= |old(m.spools)| + if act.Opens? then 1 else 0
    ensures forall i :: i in mine ==> m.spools[i] == old(m.spools)[i]
  {
    if act.Opens? {
      var id := m.NewSpool();
    } else if act.id !in mine && act.id < |m.spools| && Due(act, m.spools[act.id]) {
      RunSection(m, act);
    }
  }

  method RunSection(m: SpoolManager, act: Act)
    requires m.Valid() && !act.Opens? && act.id < |m.spools| && Due(act, m.spools[act.id])
    modifies m
    ensures m.Valid() && act.id < |m.spools| && m.spools == old(m.spools)[act.id := m.spools[act.id]]
  {
    var err;
    match act
    case Begins(id, p, spillOk) => err := m.BeginWrite(id, p, spillOk);
    case Reserves(id) => err := m.Reserve(id);
    case Evicts(id, spillOk) => err := m.Evict(id, spillOk);
    case Stores(id, n) => m.Store(id, n);
    case Returns(id) => m.ReturnSurplus(id);
    case Closes(id) => m.BeginClose(id);
    case Releases(id) => m.FinishClose(id);
  }

  /** Whatever other sessions do leaves the spools in `mine` alone. */
  method OthersAct(m: SpoolManager, mine: set<nat>, acts: seq<Act>)
    requires m.Valid() && forall i :: i in mine ==> i < |m.spools|
    modifies m
    ensures m.Valid() && |old(m.spools)| <= |m.spools| <= |old(m.spools)| + Opened(acts)
    ensures forall i :: i in mine ==> m.spools[i] == old(m.spools)[i]
    ensures acts == [] ==> m.spools == old(m.spools) && m.total == old(m.total)
  {
    for k := 0 to |acts|
      invariant m.Valid() && |old(m.spools)| <= |m.spools| <= |old(m.spools)| + Opened(acts[..k])
      invariant forall i :: i in mine ==> m.spools[i] == old(m.spools)[i]
      invariant k == 0 ==> m.spools == old(m.spools) && m.total == old(m.total)
    {
      assert acts[..k + 1][..k] == acts[..k];
      OtherActs(m, mine, acts[k]);
    }
    TakeWhole(acts);
  }

  /** Spools that came and went leave the sums as they were. */
  lemma {:induction false} GoneAddNothing(before: seq<Spool>, after: seq<Spool>, o: Options)
    requires before <= after && forall i :: |before| <= i < |after| ==> after[i].Ok(o) && after[i].activity.Released?
    ensures TotalHeld(after) == TotalHeld(before)
    ensures TotalMemory(after) == TotalMemory(before) && CountLive(after) == CountLive(before)
  {
    if before != after {
      GoneAddNothing(before, after[..|after| - 1], o);
    }
  }

  /** Once every spool is closed the whole budget is free again. */
  lemma BudgetReturns(m: SpoolManager)
    requires m.Valid() && forall i :: 0 <= i < |m.spools| ==> m.spools[i].activity.Released?
    ensures m.total == 0 && m.totalMemory == 0 && m.concurrent == 0
  {
    AllReleased(m.spools, m.options);
  }
}
