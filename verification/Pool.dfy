/** The per-service DuckDB connection pool of backend/core/duckdb_pool.py.

    `Fields` are the members guarded by the pool's condition variable; each function on them is one
    region the code runs under the lock, and class `ConnectionPool` is the object that runs those regions.
    PoolRuns (PoolRuns.dfy) interleaves them with the code that runs outside the lock. */
module Pool {

  type Connection = nat

  datatype Fields = Fields(idle: seq<Connection>, inUse: int, draining: bool)

  /** What the admission loop of `acquire` decides in one pass under the lock. */
  datatype Admission =
    | Reuse(con: Connection)
    | Reserve          // a slot is counted; the connection is built after the lock is released
    | Busy             // _PoolBusy is raised
    | Wait             // sleep on the condition variable and try again

  function Admit(p: Fields, maxSize: nat, reuseOnly: bool, expired: bool): (Fields, Admission) {
    if p.draining then (p, if reuseOnly || expired then Busy else Wait)
    else if p.idle != [] then
      (p.(idle := p.idle[..|p.idle| - 1]), Reuse(p.idle[|p.idle| - 1]))
    else if reuseOnly then (p, Busy)
    else if p.inUse < maxSize then (p.(inUse := p.inUse + 1), Reserve)
    else (p, if expired then Busy else Wait)
  }

  /** `_idle.put_nowait`; the flag is false when the queue is full. */
  function PutIdle(p: Fields, maxSize: nat, con: Connection): (Fields, bool) {
    if |p.idle| < maxSize then (p.(idle := p.idle + [con]), true) else (p, false)
  }

  function GiveBack(p: Fields): Fields { p.(inUse := p.inUse - 1) }

  /** `_drain_idle_locked`: every idle connection is closed and uncounted. */
  function DropIdle(p: Fields): Fields { p.(idle := [], inUse := p.inUse - |p.idle|) }

  function BeginDrain(p: Fields): Fields { DropIdle(p.(draining := true)) }

  function EndDrain(p: Fields): Fields { p.(draining := false) }

  /** The first region of `warm_idle`: takes every idle connection, newest first, unless draining. */
  function TakeAll(p: Fields): (Fields, seq<Connection>) {
    if p.draining then (p, []) else (p.(idle := []), Reversed(p.idle))
  }

  function Reversed(s: seq<Connection>): (r: seq<Connection>)
    ensures |r| == |s|
  {
    if s == [] then [] else [s[|s| - 1]] + Reversed(s[..|s| - 1])
  }

  lemma {:induction false} ReversedPermutes(s: seq<Connection>)
    ensures multiset(Reversed(s)) == multiset(s)
  {
    if s != [] {
      ReversedPermutes(s[..|s| - 1]);
      assert s == s[..|s| - 1] + [s[|s| - 1]];
    }
  }

  /** The last region of `warm_idle`: re-queues what fits; the rest is closed and uncounted. */
  function PutAll(p: Fields, maxSize: nat, cons: seq<Connection>): (Fields, set<Connection>)
    decreases |cons|
  {
    if cons == [] then (p, {})
    else
      var (p1, ok) := PutIdle(p, maxSize, cons[0]);
      var (p2, closed) := PutAll(if ok then p1 else GiveBack(p), maxSize, cons[1..]);
      (p2, if ok then closed else closed + {cons[0]})
  }

  /** `_pool_heavy_cap`; `override` is DUCKDB_POOL_HEAVY_MAX when it is set to an integer. */
  function HeavyCap(maxSize: nat, override: Override): (cap: nat)
    ensures maxSize >= 1 ==> 1 <= cap <= maxSize
  {
    match override
    case Unset => if maxSize - 1 > 1 then maxSize - 1 else 1
    case Limit(n) => var low := if n > 1 then n else 1; if maxSize < low then maxSize else low
  }

  datatype Override = Unset | Limit(n: int)

  /** Exactly when the cap leaves a slot that heavy requests can never take. */
  lemma HeavyCapLeavesRoom(maxSize: nat, override: Override)
    requires maxSize >= 1
    ensures HeavyCap(maxSize, override) < maxSize
       <==> maxSize >= 2 && (override.Limit? ==> override.n < maxSize)
  {}

  class ConnectionPool {
    const maxSize: nat
    var idle: seq<Connection>
    var inUse: int
    var draining: bool
    var createdTotal: nat
    var reusedTotal: nat
    var discardedTotal: nat
    var saturatedRejects: nat
    var drainRejects: nat

    function State(): Fields
      reads this
    {
      Fields(idle, inUse, draining)
    }

    constructor (maxSize: nat)
      ensures this.maxSize == maxSize && State() == Fields([], 0, false)
      ensures createdTotal == reusedTotal == discardedTotal == saturatedRejects == drainRejects == 0
    {
      this.maxSize := maxSize;
      idle, inUse, draining := [], 0, false;
      createdTotal, reusedTotal, discardedTotal, saturatedRejects, drainRejects := 0, 0, 0, 0, 0;
    }

    /** One pass of the admission loop. */
    method TryAdmit(reuseOnly: bool, expired: bool) returns (a: Admission)
      modifies this
      ensures (State(), a) == Admit(old(State()), maxSize, reuseOnly, expired)
      ensures a.Reuse? <==> !old(draining) && old(idle) != []
      ensures a.Reuse? ==> old(idle) == idle + [a.con] && inUse == old(inUse)
      ensures a == Reserve <==> !old(draining) && old(idle) == [] && !reuseOnly && old(inUse) < maxSize
      ensures a == Reserve ==> idle == old(idle) && inUse == old(inUse) + 1
      ensures a == Busy <==> (old(draining) || old(idle) == [])
                             && (reuseOnly || (expired && (old(draining) || old(inUse) >= maxSize)))
      ensures a == Busy || a == Wait ==> State() == old(State())
      ensures draining == old(draining)
      ensures createdTotal == old(createdTotal) + (if a == Reserve then 1 else 0)
      ensures reusedTotal == old(reusedTotal) + (if a.Reuse? then 1 else 0)
      ensures drainRejects == old(drainRejects) + (if a == Busy && draining && !reuseOnly then 1 else 0)
      ensures saturatedRejects == old(saturatedRejects) + (if a == Busy && !draining && !reuseOnly then 1 else 0)
      ensures discardedTotal == old(discardedTotal)
    {
      if draining {
        if reuseOnly {
          return Busy;
        }
        if expired {
          drainRejects := drainRejects + 1;
          return Busy;
        }
        return Wait;
      }
      if idle != [] {
        var con := idle[|idle| - 1];
        idle := idle[..|idle| - 1];
        reusedTotal := reusedTotal + 1;
        return Reuse(con);
      }
      if reuseOnly {
        return Busy;
      }
      if inUse < maxSize {
        inUse, createdTotal := inUse + 1, createdTotal + 1;
        return Reserve;
      }
      if expired {
        saturatedRejects := saturatedRejects + 1;
        return Busy;
      }
      return Wait;
    }

    /** The re-queue of `release`. */
    method Requeue(con: Connection) returns (ok: bool)
      modifies this`idle
      ensures (State(), ok) == PutIdle(old(State()), maxSize, con)
      ensures ok <==> |old(idle)| < maxSize
      ensures idle == if ok then old(idle) + [con] else old(idle)
    {
      ok := |idle| < maxSize;
      if ok {
        idle := idle + [con];
      }
    }

    /** The last region of `_discard`. */
    method CountDiscard()
      modifies this`inUse, this`discardedTotal
      ensures State() == GiveBack(old(State())) && discardedTotal == old(discardedTotal) + 1
      ensures inUse == old(inUse) - 1
    {
      inUse, discardedTotal := inUse - 1, discardedTotal + 1;
    }

    /** `_drain_idle_locked`: pops until the queue is empty; returns what it closed, newest first. */
    method DrainIdleLocked() returns (closed: seq<Connection>)
      modifies this`idle, this`inUse
      ensures State() == DropIdle(old(State()))
      ensures idle == [] && inUse == old(inUse) - |old(idle)|
      ensures closed == Reversed(old(idle))
    {
      closed := [];
      while idle != []
        invariant inUse - |idle| == old(inUse) - |old(idle)|
        invariant Reversed(old(idle)) == closed + Reversed(idle)
        decreases |idle|
      {
        closed := closed + [idle[|idle| - 1]];
        idle := idle[..|idle| - 1];
        inUse := inUse - 1;
      }
      assert closed == closed + Reversed(idle);
    }

    method StartDrain()
      modifies this`idle, this`inUse, this`draining
      ensures State() == BeginDrain(old(State()))
      ensures draining && idle == [] && inUse == old(inUse) - |old(idle)|
    {
      draining := true;
      var _ := DrainIdleLocked();
    }

    method StopDrain()
      modifies this`draining
      ensures State() == EndDrain(old(State()))
      ensures !draining
    {
      draining := false;
    }

    /** The first region of `warm_idle`. */
    method TakeIdle() returns (drained: seq<Connection>)
      modifies this`idle
      ensures (State(), drained) == TakeAll(old(State()))
      ensures if draining then drained == [] && idle == old(idle) else idle == [] && |drained| == |old(idle)|
    {
      drained := [];
      if draining {
        return;
      }
      while idle != []
        invariant Reversed(old(idle)) == drained + Reversed(idle)
        decreases |idle|
      {
        drained := drained + [idle[|idle| - 1]];
        idle := idle[..|idle| - 1];
      }
      assert drained == drained + Reversed(idle);
    }

    /** The last region of `warm_idle`. */
    method ReturnIdle(drained: seq<Connection>) returns (closed: set<Connection>)
      modifies this`idle, this`inUse
      ensures (State(), closed) == PutAll(old(State()), maxSize, drained)
    {
      closed := {};
      for i := 0 to |drained|
        invariant draining == old(draining)
        invariant PutAll(old(State()), maxSize, drained).0 == PutAll(State(), maxSize, drained[i..]).0
        invariant PutAll(old(State()), maxSize, drained).1 == closed + PutAll(State(), maxSize, drained[i..]).1
      {
        assert drained[i..][0] == drained[i] && drained[i..][1..] == drained[i + 1..];
        if |idle| < maxSize {
          idle := idle + [drained[i]];
        } else {
          inUse := inUse - 1;
          closed := closed + {drained[i]};
        }
      }
    }
  }
}
