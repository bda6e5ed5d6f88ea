/** What a thread gets from the pool, read off the state it finds: who reuses, who builds, who is refused and who waits,
    and that whoever waits is let in by whatever lets go (backend/core/duckdb_pool.py). */
module PoolOutcomes {
  import opened Pool
  import opened PoolRuns

  /** What a step leaves alone: all threads but its own. */
  ghost predicate OnlyThread(s: State, t: nat, s': State) {
    && t < |s.threads| == |s'.threads| && s'.threads[t].heavy == s.threads[t].heavy && s'.heavyFree == s.heavyFree
    && (forall u :: 0 <= u < |s.threads| && u != t ==> s'.threads[u] == s.threads[u])
  }

  // ---- Admission ----------------------------------------------------------------------------

  /** A pool that is not draining and has idle connections gives its newest, whatever the flags; nothing else does. */
  lemma ReusesIff(cfg: Config, s: State, t: nat, expired: bool)
    requires t < |s.threads| && s.threads[t].phase.Wanting?
    ensures var s' := Next(cfg, s, Acquire(t, expired));
            && OnlyThread(s, t, s') && s'.open == s.open && s'.pool.draining == s.pool.draining
            && (s'.threads[t].phase.Refreshing? <==> !s.pool.draining && |s.pool.idle| > 0)
            && (s'.threads[t].phase.Refreshing? ==>
                  && s.pool.idle == s'.pool.idle + [s'.threads[t].phase.con]
                  && s'.pool.inUse == s.pool.inUse)
  {
  }

  /** Without an idle one it builds exactly if it may and a slot is free, and counts the slot at once. */
  lemma BuildsIff(cfg: Config, s: State, t: nat, expired: bool)
    requires t < |s.threads| && s.threads[t].phase.Wanting?
    ensures var s' := Next(cfg, s, Acquire(t, expired));
            && (s'.threads[t].phase.Building? <==>
                  !s.pool.draining && s.pool.idle == [] && !s.threads[t].phase.reuseOnly && s.pool.inUse < cfg.maxSize)
            && (s'.threads[t].phase.Building? ==> s'.pool == s.pool.(inUse := s.pool.inUse + 1))
  {
  }

  /** It is refused exactly if it wanted only an idle one and there is none to be had, or its time is up while the pool is
      draining or full. */
  lemma RefusedIff(cfg: Config, s: State, t: nat, expired: bool)
    requires t < |s.threads| && s.threads[t].phase.Wanting?
    ensures var s' := Next(cfg, s, Acquire(t, expired));
            && (s'.threads[t].phase.Leaving? <==>
                  (s.pool.draining || s.pool.idle == [])
                  && (s.threads[t].phase.reuseOnly || (expired && (s.pool.draining || s.pool.inUse >= cfg.maxSize))))
            && (s'.threads[t].phase.Leaving? ==> s'.pool == s.pool)
  {
  }

  /** In every other case it waits, and nothing changes. */
  lemma WaitsIff(cfg: Config, s: State, t: nat, expired: bool)
    requires t < |s.threads| && s.threads[t].phase.Wanting?
    ensures var s' := Next(cfg, s, Acquire(t, expired));
            && (s'.threads[t].phase.Wanting? <==>
                  && !expired && !s.threads[t].phase.reuseOnly
                  && (s.pool.draining || (s.pool.idle == [] && s.pool.inUse >= cfg.maxSize)))
            && (s'.threads[t].phase.Wanting? ==> s' == s)
  {
  }

  /** In a run nobody waits, and nobody is turned away for lack of room, unless other threads hold every slot. */
  lemma FullMeansHeld(cfg: Config, s: State, t: nat)
    requires Reachable(cfg, s) && t < |s.threads| && s.threads[t].phase.Wanting?
    requires !s.pool.draining && s.pool.idle == [] && s.pool.inUse >= cfg.maxSize
    ensures SlotSum(s.threads) == cfg.maxSize && Slots(s.threads[t].phase) == 0
  {
    Conservation(cfg, s);
  }

  /** When a thread re-queues its connection, a waiting thread that tries next gets that connection. */
  lemma RequeueLetsIn(cfg: Config, s: State, u: nat, t: nat, expired: bool)
    requires Reachable(cfg, s) && !s.pool.draining && u < |s.threads| && t < |s.threads|
    requires s.threads[u].phase.Returning? && s.threads[t].phase.Wanting?
    ensures var s1 := Next(cfg, s, Requeue(u));
            && s1.threads[t] == s.threads[t]
            && Next(cfg, s1, Acquire(t, expired)).threads[t].phase == Refreshing(s.threads[u].phase.con)
  {
    ReachableInv(cfg, s);
    QueueNeverFull(cfg, s, u);
    ReusesIff(cfg, Next(cfg, s, Requeue(u)), t, expired);
  }

  /** When a thread of a full pool has closed its connection, a waiting thread that tries next may build. */
  lemma DiscardLetsIn(cfg: Config, s: State, u: nat, t: nat, expired: bool)
    requires Reachable(cfg, s) && !s.pool.draining && s.pool.idle == [] && u < |s.threads| && t < |s.threads|
    requires s.threads[u].phase.Closed? && s.threads[t].phase.Wanting? && !s.threads[t].phase.reuseOnly
    ensures var s1 := Next(cfg, s, Uncount(u));
            && s1.threads[t] == s.threads[t]
            && Next(cfg, s1, Acquire(t, expired)).threads[t].phase == Building
  {
    Conservation(cfg, s);
    BuildsIff(cfg, Next(cfg, s, Uncount(u)), t, expired);
  }

  // ---- Coming back --------------------------------------------------------------------------

  /** A connection in use is closed if its use failed or the pool is draining, and otherwise on its way back; it stays
      the thread's. */
  lemma ReleasedIff(cfg: Config, s: State, t: nat, errored: bool)
    requires t < |s.threads| && s.threads[t].phase.Using?
    ensures var s' := Next(cfg, s, Release(t, errored));
            && OnlyThread(s, t, s') && s'.pool == s.pool && s'.open == s.open
            && (s'.threads[t].phase == Discarding(s.threads[t].phase.con) <==> errored || s.pool.draining)
            && (s'.threads[t].phase == Returning(s.threads[t].phase.con) <==> !errored && !s.pool.draining)
  {
  }

  /** In a run a connection on its way back becomes the newest idle one. */
  lemma RequeuedLast(cfg: Config, s: State, t: nat)
    requires Reachable(cfg, s) && t < |s.threads| && s.threads[t].phase.Returning?
    ensures var s' := Next(cfg, s, Requeue(t));
            && OnlyThread(s, t, s') && s'.threads[t].phase == Leaving && s'.open == s.open
            && s'.pool == s.pool.(idle := s.pool.idle + [s.threads[t].phase.con])
  {
    ReachableInv(cfg, s);
    QueueNeverFull(cfg, s, t);
  }

  /** Were the queue ever full, the connection would be closed and its slot freed instead. */
  lemma RejectedWhenFull(cfg: Config, s: State, t: nat)
    requires t < |s.threads| && s.threads[t].phase.Returning? && |s.pool.idle| >= cfg.maxSize
    ensures var s1 := Next(cfg, s, Requeue(t));
            && OnlyThread(s, t, s1) && s1.threads[t].phase == Rejected(s.threads[t].phase.con)
            && s1.pool == s.pool && s1.open == s.open
            && var s2 := Next(cfg, s1, CloseRejected(t));
            && s2.threads[t].phase == Closed && s2.open == s.open - {s.threads[t].phase.con} && s2.pool == s.pool
  {
  }

  /** A discarded connection is closed first and its slot freed after. */
  lemma DiscardedInTwo(cfg: Config, s: State, t: nat)
    requires t < |s.threads| && s.threads[t].phase.Discarding?
    ensures var s1 := Next(cfg, s, CloseDiscarded(t));
            && OnlyThread(s, t, s1) && s1.threads[t].phase == Closed && s1.pool == s.pool
            && s1.open == s.open - {s.threads[t].phase.con}
            && var s2 := Next(cfg, s1, Uncount(t));
            && OnlyThread(s, t, s2) && s2.threads[t].phase == Leaving && s2.open == s1.open
            && s2.pool == s.pool.(inUse := s.pool.inUse - 1)
  {
  }

  /** A build opens a connection nobody has, or gives its slot back. */
  lemma BuildsOrGivesBack(cfg: Config, s: State, t: nat)
    requires Reachable(cfg, s) && t < |s.threads| && s.threads[t].phase.Building?
    ensures var s1 := Next(cfg, s, BuildOk(t));
            && OnlyThread(s, t, s1) && s1.pool == s.pool && s1.threads[t].phase.Using?
            && s1.threads[t].phase.con !in s.open && s1.open == s.open + {s1.threads[t].phase.con}
    ensures var s1 := Next(cfg, Next(cfg, s, BuildRaises(t)), UncountBuild(t));
            && OnlyThread(s, t, s1) && s1.threads[t].phase == Leaving && s1.open == s.open
            && s1.pool == s.pool.(inUse := s.pool.inUse - 1)
  {
    ReachableInv(cfg, s);
  }

  /** A reused connection is handed out if its refresh succeeds and discarded if not. */
  lemma Refreshed(cfg: Config, s: State, t: nat)
    requires t < |s.threads| && s.threads[t].phase.Refreshing?
    ensures Next(cfg, s, RefreshOk(t)) == Move(s, t, Using(s.threads[t].phase.con))
    ensures Next(cfg, s, RefreshFails(t)) == Move(s, t, Discarding(s.threads[t].phase.con))
  {
  }

  // ---- Heavy slots --------------------------------------------------------------------------

  /** A heavy request takes a permit before it may try, and gives it back when it leaves. */
  lemma HeavyPermit(cfg: Config, s: State, t: nat, reuseOnly: bool)
    requires t < |s.threads|
    ensures Enabled(cfg, s, TakeHeavySlot(t, reuseOnly)) <==> s.threads[t].phase == Outside && s.heavyFree > 0
    ensures Enabled(cfg, s, TakeHeavySlot(t, reuseOnly)) ==>
              var s' := Next(cfg, s, TakeHeavySlot(t, reuseOnly));
              s'.threads[t] == Thread(Wanting(reuseOnly), true) && s'.heavyFree == s.heavyFree - 1 && s'.pool == s.pool
    ensures s.threads[t].phase == Leaving ==>
              var s' := Next(cfg, s, Leave(t));
              && s'.threads[t] == Thread(Outside, false) && s'.pool == s.pool && s'.open == s.open
              && s'.heavyFree == s.heavyFree + if s.threads[t].heavy then 1 else 0
  {
  }

  /** The cap is the override held between one and the pool's size; without one it is one less than the size, at least one. */
  lemma HeavyCapIs(maxSize: nat, override: Override)
    requires maxSize >= 1
    ensures override == Unset ==> HeavyCap(maxSize, override) == if maxSize <= 2 then 1 else maxSize - 1
    ensures override.Limit? && 1 <= override.n <= maxSize ==> HeavyCap(maxSize, override) == override.n
    ensures override.Limit? && override.n < 1 ==> HeavyCap(maxSize, override) == 1
    ensures override.Limit? && override.n > maxSize ==> HeavyCap(maxSize, override) == maxSize
  {
  }

  // ---- Draining and warming -----------------------------------------------------------------

  /** The start of a drain closes the idle connections, and no others, and sets the flag; its end only clears the flag;
      dropping the idle ones does not touch it. */
  lemma DrainEdges(cfg: Config, s: State)
    ensures var s' := Next(cfg, s, DrainBegins);
            && s'.pool == Fields([], s.pool.inUse - |s.pool.idle|, true) && s'.threads == s.threads
            && s'.heavyFree == s.heavyFree && s'.next == s.next
            && (forall c :: c in s'.open <==> c in s.open && c !in s.pool.idle)
    ensures Next(cfg, s, DrainEnds) == s.(pool := s.pool.(draining := false))
    ensures var s' := Next(cfg, s, IdleDropped);
            && s'.pool == Fields([], s.pool.inUse - |s.pool.idle|, s.pool.draining) && s'.threads == s.threads
            && s'.heavyFree == s.heavyFree && s'.next == s.next
            && (forall c :: c in s'.open <==> c in s.open && c !in s.pool.idle)
  {
  }

  lemma {:induction false} ReversedAt(s: seq<Connection>, i: nat)
    requires i < |s|
    ensures Reversed(s)[i] == s[|s| - 1 - i]
  {
    if i > 0 {
      ReversedAt(s[..|s| - 1], i - 1);
    }
  }

  /** Warming takes the idle connections, newest first, unless the pool is draining or there are none; in a run all of
      them come back, behind what became idle meanwhile. */
  lemma WarmTakes(cfg: Config, s: State, t: nat)
    requires t < |s.threads| && s.threads[t].phase == Outside
    ensures var s' := Next(cfg, s, WarmTake(t));
            && (s' == s <==> s.pool.draining || s.pool.idle == [])
            && (s' != s ==>
                  && OnlyThread(s, t, s') && s'.open == s.open && s'.pool == s.pool.(idle := [])
                  && s'.threads[t].phase.Warming? && |s'.threads[t].phase.cons| == |s.pool.idle|
                  && forall i :: 0 <= i < |s.pool.idle| ==> s'.threads[t].phase.cons[i] == s.pool.idle[|s.pool.idle| - 1 - i])
  {
    var s' := Next(cfg, s, WarmTake(t));
    if !s.pool.draining && s.pool.idle != [] {
      assert s'.threads[t].phase.Warming?;
      forall i | 0 <= i < |s.pool.idle| ensures s'.threads[t].phase.cons[i] == s.pool.idle[|s.pool.idle| - 1 - i] {
        ReversedAt(s.pool.idle, i);
      }
    }
  }

  lemma WarmReturns(cfg: Config, s: State, t: nat)
    requires Reachable(cfg, s) && t < |s.threads| && s.threads[t].phase.Warming?
    ensures var s' := Next(cfg, s, WarmReturn(t));
            && OnlyThread(s, t, s') && s'.threads[t].phase == Outside && s'.open == s.open
            && s'.pool == s.pool.(idle := s.pool.idle + s.threads[t].phase.cons)
  {
    ReachableInv(cfg, s);
    QueueNeverFull(cfg, s, t);
    assert s.open - {} == s.open;
  }
}
