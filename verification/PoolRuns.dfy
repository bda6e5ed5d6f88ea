/** Every interleaving of threads using one connection pool: each step is either one region run
    under the pool's lock or one action taken outside it (building, refreshing, closing). */
module PoolRuns {
  import opened Pool

  /** Where a thread is inside `checkout_connection`, `release` or `warm_idle`. */
  datatype Phase =
    | Outside
    | Wanting(reuseOnly: bool)         // in the admission loop of acquire
    | Refreshing(con: Connection)      // reused; attach and view refresh run outside the lock
    | Building                         // slot counted, get_connection in flight
    | BuildFailed                      // get_connection raised; slot not yet uncounted
    | Using(con: Connection)
    | Returning(con: Connection)       // release saw the flag clear; re-queue still to come
    | Rejected(con: Connection)        // re-queue found the queue full
    | Discarding(con: Connection)      // _discard entered; still open
    | Closed                           // closed; slot not yet uncounted
    | Warming(cons: seq<Connection>)   // taken from the idle queue by warm_idle
    | Leaving                          // nothing held; a heavy slot may still have to be returned

  datatype Thread = Thread(phase: Phase, heavy: bool)

  datatype Config = Config(maxSize: nat, heavyCap: nat)

  /** `open` are the connections that exist, `heavyFree` the heavy semaphore, `next` an unused identity. */
  datatype State = State(
    pool: Fields, open: set<Connection>, threads: seq<Thread>, heavyFree: nat, next: Connection)

  datatype Step =
    | TakeHeavySlot(t: nat, reuseOnly: bool)
    | StartLight(t: nat, reuseOnly: bool)
    | Acquire(t: nat, expired: bool)
    | RefreshOk(t: nat)
    | RefreshFails(t: nat)
    | BuildOk(t: nat)
    | BuildRaises(t: nat)
    | UncountBuild(t: nat)
    | Release(t: nat, errored: bool)   // reads the draining flag without the lock
    | Requeue(t: nat)
    | CloseRejected(t: nat)
    | CloseDiscarded(t: nat)
    | Uncount(t: nat)
    | Leave(t: nat)                    // returns the heavy slot, if one is held
    | WarmTake(t: nat)
    | WarmReturn(t: nat)
    | DrainBegins
    | DrainEnds
    | IdleDropped                      // discard_idle

  predicate Enabled(cfg: Config, s: State, step: Step) {
    match step
    case TakeHeavySlot(t, _) => t < |s.threads| && s.threads[t].phase.Outside? && s.heavyFree > 0
    case StartLight(t, _) => t < |s.threads| && s.threads[t].phase.Outside?
    case Acquire(t, _) => t < |s.threads| && s.threads[t].phase.Wanting?
    case RefreshOk(t) => t < |s.threads| && s.threads[t].phase.Refreshing?
    case RefreshFails(t) => t < |s.threads| && s.threads[t].phase.Refreshing?
    case BuildOk(t) => t < |s.threads| && s.threads[t].phase.Building?
    case BuildRaises(t) => t < |s.threads| && s.threads[t].phase.Building?
    case UncountBuild(t) => t < |s.threads| && s.threads[t].phase.BuildFailed?
    case Release(t, _) => t < |s.threads| && s.threads[t].phase.Using?
    case Requeue(t) => t < |s.threads| && s.threads[t].phase.Returning?
    case CloseRejected(t) => t < |s.threads| && s.threads[t].phase.Rejected?
    case CloseDiscarded(t) => t < |s.threads| && s.threads[t].phase.Discarding?
    case Uncount(t) => t < |s.threads| && s.threads[t].phase.Closed?
    case Leave(t) => t < |s.threads| && s.threads[t].phase.Leaving?
    case WarmTake(t) => t < |s.threads| && s.threads[t].phase.Outside?
    case WarmReturn(t) => t < |s.threads| && s.threads[t].phase.Warming?
    case DrainBegins => true
    case DrainEnds => true
    case IdleDropped => true
  }

  function Move(s: State, t: nat, phase: Phase): State
    requires t < |s.threads|
  {
    s.(threads := s.threads[t := s.threads[t].(phase := phase)])
  }

  function Elements(s: seq<Connection>): set<Connection> { set c | c in s }

  function Next(cfg: Config, s: State, step: Step): State
    requires Enabled(cfg, s, step)
  {
    match step
    case TakeHeavySlot(t, reuseOnly) =>
      s.(threads := s.threads[t := Thread(Wanting(reuseOnly), true)], heavyFree := s.heavyFree - 1)
    case StartLight(t, reuseOnly) => Move(s, t, Wanting(reuseOnly))
    case Acquire(t, expired) =>
      var (p, a) := Admit(s.pool, cfg.maxSize, s.threads[t].phase.reuseOnly, expired);
      (match a
       case Reuse(con) => Move(s, t, Refreshing(con))
       case Reserve => Move(s, t, Building)
       case Busy => Move(s, t, Leaving)
       case Wait => s).(pool := p)
    case RefreshOk(t) => Move(s, t, Using(s.threads[t].phase.con))
    case RefreshFails(t) => Move(s, t, Discarding(s.threads[t].phase.con))
    case BuildOk(t) => Move(s, t, Using(s.next)).(open := s.open + {s.next}, next := s.next + 1)
    case BuildRaises(t) => Move(s, t, BuildFailed)
    case UncountBuild(t) => Move(s, t, Leaving).(pool := GiveBack(s.pool))
    case Release(t, errored) =>
      var con := s.threads[t].phase.con;
      Move(s, t, if errored || s.pool.draining then Discarding(con) else Returning(con))
    case Requeue(t) =>
      var con := s.threads[t].phase.con;
      var (p, ok) := PutIdle(s.pool, cfg.maxSize, con);
      Move(s, t, if ok then Leaving else Rejected(con)).(pool := p)
    case CloseRejected(t) => Move(s, t, Closed).(open := s.open - {s.threads[t].phase.con})
    case CloseDiscarded(t) => Move(s, t, Closed).(open := s.open - {s.threads[t].phase.con})
    case Uncount(t) => Move(s, t, Leaving).(pool := GiveBack(s.pool))
    case Leave(t) =>
      s.(threads := s.threads[t := Thread(Outside, false)],
         heavyFree := if s.threads[t].heavy then s.heavyFree + 1 else s.heavyFree)
    case WarmTake(t) =>
      var (p, cons) := TakeAll(s.pool);
      if cons == [] then s else Move(s, t, Warming(cons)).(pool := p)
    case WarmReturn(t) =>
      var (p, closed) := PutAll(s.pool, cfg.maxSize, s.threads[t].phase.cons);
      Move(s, t, Outside).(pool := p, open := s.open - closed)
    case DrainBegins => s.(pool := BeginDrain(s.pool), open := s.open - Elements(s.pool.idle))
    case DrainEnds => s.(pool := EndDrain(s.pool))
    case IdleDropped => s.(pool := DropIdle(s.pool), open := s.open - Elements(s.pool.idle))
  }

  function Initial(cfg: Config, threads: nat): State {
    State(Fields([], 0, false), {}, seq(threads, _ => Thread(Outside, false)), cfg.heavyCap, 0)
  }

  // ---- Accounting ---------------------------------------------------------------------------

  /** Slots of the pool a thread accounts for. */
  function Slots(p: Phase): nat {
    match p
    case Outside => 0
    case Wanting(_) => 0
    case Leaving => 0
    case Warming(cons) => |cons|
    case _ => 1
  }

  /** How often a thread owns the open connection `c`. */
  function Owns(p: Phase, c: Connection): nat {
    match p
    case Refreshing(con) => if con == c then 1 else 0
    case Using(con) => if con == c then 1 else 0
    case Returning(con) => if con == c then 1 else 0
    case Rejected(con) => if con == c then 1 else 0
    case Discarding(con) => if con == c then 1 else 0
    case Warming(cons) => multiset(cons)[c]
    case _ => 0
  }

  function SlotSum(ts: seq<Thread>): nat {
    if ts == [] then 0 else Slots(ts[0].phase) + SlotSum(ts[1..])
  }

  function OwnerSum(ts: seq<Thread>, c: Connection): nat {
    if ts == [] then 0 else Owns(ts[0].phase, c) + OwnerSum(ts[1..], c)
  }

  function Permit(t: Thread): nat { if t.heavy then 1 else 0 }

  function PermitSum(ts: seq<Thread>): nat {
    if ts == [] then 0 else Permit(ts[0]) + PermitSum(ts[1..])
  }

  /** Slots accounted for by threads that came in through the heavy bulkhead. */
  function HeavySlots(ts: seq<Thread>): nat {
    if ts == [] then 0 else (if ts[0].heavy then Slots(ts[0].phase) else 0) + HeavySlots(ts[1..])
  }

  lemma {:induction false} SlotUpdate(ts: seq<Thread>, t: nat, x: Thread)
    requires t < |ts|
    ensures SlotSum(ts[t := x]) == SlotSum(ts) - Slots(ts[t].phase) + Slots(x.phase)
  {
    if t == 0 {
      assert ts[t := x][1..] == ts[1..];
    } else {
      SlotUpdate(ts[1..], t - 1, x);
      assert ts[t := x][1..] == ts[1..][t - 1 := x];
    }
  }

  lemma {:induction false} OwnerUpdate(ts: seq<Thread>, t: nat, x: Thread, c: Connection)
    requires t < |ts|
    ensures OwnerSum(ts[t := x], c) == OwnerSum(ts, c) - Owns(ts[t].phase, c) + Owns(x.phase, c)
  {
    if t == 0 {
      assert ts[t := x][1..] == ts[1..];
    } else {
      OwnerUpdate(ts[1..], t - 1, x, c);
      assert ts[t := x][1..] == ts[1..][t - 1 := x];
    }
  }

  lemma {:induction false} PermitUpdate(ts: seq<Thread>, t: nat, x: Thread)
    requires t < |ts|
    ensures PermitSum(ts[t := x]) == PermitSum(ts) - Permit(ts[t]) + Permit(x)
  {
    if t == 0 {
      assert ts[t := x][1..] == ts[1..];
    } else {
      PermitUpdate(ts[1..], t - 1, x);
      assert ts[t := x][1..] == ts[1..][t - 1 := x];
    }
  }

  lemma {:induction false} SlotMember(ts: seq<Thread>, t: nat)
    requires t < |ts|
    ensures Slots(ts[t].phase) <= SlotSum(ts)
  {
    if t > 0 {
      SlotMember(ts[1..], t - 1);
    }
  }

  /** Owners of connection `c`: the idle queue and the threads. */
  function Owners(s: State, c: Connection): nat {
    multiset(s.pool.idle)[c] + OwnerSum(s.threads, c)
  }

  ghost predicate CountInv(cfg: Config, s: State) {
    s.pool.inUse == |s.pool.idle| + SlotSum(s.threads) <= cfg.maxSize
  }

  ghost predicate OwnerInv(s: State) {
    && (forall c: Connection :: Owners(s, c) == if c in s.open then 1 else 0)
    && (forall c: Connection :: c in s.open ==> c < s.next)
  }

  ghost predicate HeavyInv(cfg: Config, s: State) {
    && s.heavyFree + PermitSum(s.threads) == cfg.heavyCap
    && (forall t :: 0 <= t < |s.threads| && s.threads[t].heavy ==>
          !s.threads[t].phase.Outside? && !s.threads[t].phase.Warming?)
  }

  /** Nothing is counted twice, nothing uncounted is open, and the bulkhead holds. */
  ghost predicate Inv(cfg: Config, s: State) {
    CountInv(cfg, s) && OwnerInv(s) && HeavyInv(cfg, s)
  }

  lemma {:induction false} AllOutside(n: nat, c: Connection)
    ensures var ts := seq(n, _ => Thread(Outside, false));
            SlotSum(ts) == 0 && OwnerSum(ts, c) == 0 && PermitSum(ts) == 0
  {
    if n > 0 {
      AllOutside(n - 1, c);
      var ts := seq(n, _ => Thread(Outside, false));
      assert ts[1..] == seq(n - 1, _ => Thread(Outside, false));
    }
  }

  lemma InitialInv(cfg: Config, n: nat)
    ensures Inv(cfg, Initial(cfg, n))
  {
    forall c: Connection ensures Owners(Initial(cfg, n), c) == 0 {
      AllOutside(n, c);
    }
    AllOutside(n, 0);
  }

  /** What a re-queue of several connections does, when the queue has room for all of them. */
  lemma {:induction false} PutAllFits(p: Fields, maxSize: nat, cons: seq<Connection>)
    requires |p.idle| + |cons| <= maxSize
    ensures PutAll(p, maxSize, cons) == (p.(idle := p.idle + cons), {})
    decreases |cons|
  {
    if cons != [] {
      PutAllFits(p.(idle := p.idle + [cons[0]]), maxSize, cons[1..]);
      assert p.idle + [cons[0]] + cons[1..] == p.idle + cons;
    } else {
      assert p.idle + cons == p.idle;
    }
  }

  /** A returned connection always finds room: the branches for a full queue are never taken. */
  lemma QueueNeverFull(cfg: Config, s: State, t: nat)
    requires CountInv(cfg, s) && t < |s.threads|
    ensures s.threads[t].phase.Returning? ==> |s.pool.idle| < cfg.maxSize
    ensures s.threads[t].phase.Warming? ==>
              PutAll(s.pool, cfg.maxSize, s.threads[t].phase.cons)
              == (s.pool.(idle := s.pool.idle + s.threads[t].phase.cons), {})
  {
    SlotMember(s.threads, t);
    if s.threads[t].phase.Warming? {
      PutAllFits(s.pool, cfg.maxSize, s.threads[t].phase.cons);
    }
  }

  predicate OfThread(step: Step) { !step.DrainBegins? && !step.DrainEnds? && !step.IdleDropped? }

  lemma StepCount(cfg: Config, s: State, step: Step)
    requires CountInv(cfg, s) && Enabled(cfg, s, step)
    ensures CountInv(cfg, Next(cfg, s, step))
  {
    if OfThread(step) {
      SlotUpdate(s.threads, step.t, Next(cfg, s, step).threads[step.t]);
      OneThread(cfg, s, step);
      SlotShift(cfg, s, step);
    }
  }

  lemma OneThread(cfg: Config, s: State, step: Step)
    requires Enabled(cfg, s, step) && OfThread(step)
    ensures var s' := Next(cfg, s, step);
            |s'.threads| == |s.threads| && s'.threads == s.threads[step.t := s'.threads[step.t]]
  {
  }

  function Unqueued(s: State): int { s.pool.inUse - |s.pool.idle| }

  /** The counter moves with the slots of the thread that takes the step. */
  lemma SlotShift(cfg: Config, s: State, step: Step)
    requires CountInv(cfg, s) && Enabled(cfg, s, step) && OfThread(step)
    ensures var s' := Next(cfg, s, step);
            && s'.pool.inUse <= cfg.maxSize && |s'.threads| == |s.threads|
            && Unqueued(s') - Slots(s'.threads[step.t].phase) == Unqueued(s) - Slots(s.threads[step.t].phase)
  {
    QueueNeverFull(cfg, s, step.t);
    SlotMember(s.threads, step.t);
    var n := SlotSum(s.threads);
  }

  lemma PermitShift(cfg: Config, s: State, step: Step)
    requires HeavyInv(cfg, s) && Enabled(cfg, s, step) && OfThread(step)
    ensures var x, y := s.threads[step.t], Next(cfg, s, step).threads[step.t];
            && Next(cfg, s, step).heavyFree + Permit(y) == s.heavyFree + Permit(x)
            && (y.heavy ==> !y.phase.Outside? && !y.phase.Warming?)
  {
  }

  lemma StepHeavy(cfg: Config, s: State, step: Step)
    requires HeavyInv(cfg, s) && Enabled(cfg, s, step)
    ensures HeavyInv(cfg, Next(cfg, s, step))
  {
    if OfThread(step) {
      var s' := Next(cfg, s, step);
      PermitUpdate(s.threads, step.t, s'.threads[step.t]);
      OneThread(cfg, s, step);
      PermitShift(cfg, s, step);
    }
  }

  lemma AcquireOwners(cfg: Config, s: State, step: Step, c: Connection)
    requires Enabled(cfg, s, step) && step.Acquire?
    ensures Owners(Next(cfg, s, step), c) == Owners(s, c)
  {
    OwnerUpdate(s.threads, step.t, Next(cfg, s, step).threads[step.t], c);
    OneThread(cfg, s, step);
    AcquireShift(cfg, s, step, c);
  }

  lemma AcquireShift(cfg: Config, s: State, step: Step, c: Connection)
    requires Enabled(cfg, s, step) && step.Acquire?
    ensures var s' := Next(cfg, s, step);
            && |s'.threads| == |s.threads|
            && multiset(s'.pool.idle)[c] + Owns(s'.threads[step.t].phase, c)
            == multiset(s.pool.idle)[c] + Owns(s.threads[step.t].phase, c)
  {
    var idle := s.pool.idle;
    if idle != [] {
      assert idle == idle[..|idle| - 1] + [idle[|idle| - 1]];
    }
  }

  lemma RequeueOwners(cfg: Config, s: State, step: Step, c: Connection)
    requires CountInv(cfg, s) && Enabled(cfg, s, step) && step.Requeue?
    ensures Owners(Next(cfg, s, step), c) == Owners(s, c)
  {
    QueueNeverFull(cfg, s, step.t);
    OwnerUpdate(s.threads, step.t, Next(cfg, s, step).threads[step.t], c);
  }

  lemma WarmTakeOwners(cfg: Config, s: State, step: Step, c: Connection)
    requires Enabled(cfg, s, step) && step.WarmTake?
    ensures Owners(Next(cfg, s, step), c) == Owners(s, c)
  {
    OwnerUpdate(s.threads, step.t, Next(cfg, s, step).threads[step.t], c);
    ReversedPermutes(s.pool.idle);
  }

  lemma WarmReturnOwners(cfg: Config, s: State, step: Step, c: Connection)
    requires CountInv(cfg, s) && Enabled(cfg, s, step) && step.WarmReturn?
    ensures Owners(Next(cfg, s, step), c) == Owners(s, c) && Next(cfg, s, step).open == s.open
  {
    var cons := s.threads[step.t].phase.cons;
    QueueNeverFull(cfg, s, step.t);
    OwnerUpdate(s.threads, step.t, s.threads[step.t].(phase := Outside), c);
    assert Next(cfg, s, step).pool.idle == s.pool.idle + cons;
    assert multiset(s.pool.idle + cons) == multiset(s.pool.idle) + multiset(cons);
  }

  /** Building opens an unused connection; closing removes the one its thread owned. */
  lemma OpenCloseOwners(cfg: Config, s: State, step: Step, c: Connection)
    requires OwnerInv(s) && Enabled(cfg, s, step)
    requires step.BuildOk? || step.CloseRejected? || step.CloseDiscarded?
    ensures Owners(Next(cfg, s, step), c) == if c in Next(cfg, s, step).open then 1 else 0
  {
    OwnerUpdate(s.threads, step.t, Next(cfg, s, step).threads[step.t], c);
    assert Owners(s, c) == if c in s.open then 1 else 0;
    assert s.next !in s.open;
  }

  lemma PassiveOwners(cfg: Config, s: State, step: Step, c: Connection)
    requires Enabled(cfg, s, step) && OfThread(step)
    requires !step.Acquire? && !step.Requeue? && !step.WarmTake? && !step.WarmReturn?
    requires !step.BuildOk? && !step.CloseRejected? && !step.CloseDiscarded?
    ensures Owners(Next(cfg, s, step), c) == Owners(s, c) && Next(cfg, s, step).open == s.open
  {
    OwnerUpdate(s.threads, step.t, Next(cfg, s, step).threads[step.t], c);
  }

  lemma DropOwners(cfg: Config, s: State, step: Step, c: Connection)
    requires OwnerInv(s) && Enabled(cfg, s, step) && !OfThread(step)
    ensures Owners(Next(cfg, s, step), c) == if c in Next(cfg, s, step).open then 1 else 0
  {
    assert c in Elements(s.pool.idle) <==> c in multiset(s.pool.idle);
    assert Owners(s, c) == if c in s.open then 1 else 0;
  }

  lemma StepOwners(cfg: Config, s: State, step: Step)
    requires CountInv(cfg, s) && OwnerInv(s) && Enabled(cfg, s, step)
    ensures OwnerInv(Next(cfg, s, step))
  {
    var s' := Next(cfg, s, step);
    forall c: Connection ensures Owners(s', c) == if c in s'.open then 1 else 0 {
      assert Owners(s, c) == if c in s.open then 1 else 0;
      match step
      case Acquire(_, _) => AcquireOwners(cfg, s, step, c);
      case Requeue(_) => RequeueOwners(cfg, s, step, c);
      case WarmTake(_) => WarmTakeOwners(cfg, s, step, c);
      case WarmReturn(_) => WarmReturnOwners(cfg, s, step, c);
      case BuildOk(_) => OpenCloseOwners(cfg, s, step, c);
      case CloseRejected(_) => OpenCloseOwners(cfg, s, step, c);
      case CloseDiscarded(_) => OpenCloseOwners(cfg, s, step, c);
      case DrainBegins => DropOwners(cfg, s, step, c);
      case DrainEnds => DropOwners(cfg, s, step, c);
      case IdleDropped => DropOwners(cfg, s, step, c);
      case _ => PassiveOwners(cfg, s, step, c);
    }
  }

  lemma StepInv(cfg: Config, s: State, step: Step)
    requires Inv(cfg, s) && Enabled(cfg, s, step)
    ensures Inv(cfg, Next(cfg, s, step))
  {
    StepCount(cfg, s, step);
    StepOwners(cfg, s, step);
    StepHeavy(cfg, s, step);
  }

  // ---- Runs ---------------------------------------------------------------------------------

  ghost predicate Path(cfg: Config, s: State, steps: seq<Step>, s': State)
    decreases |steps|
  {
    if steps == [] then s == s'
    else Enabled(cfg, s, steps[0]) && Path(cfg, Next(cfg, s, steps[0]), steps[1..], s')
  }

  ghost predicate Reachable(cfg: Config, s: State) {
    exists n: nat, steps :: Path(cfg, Initial(cfg, n), steps, s)
  }

  lemma {:induction false} PathInv(cfg: Config, s: State, steps: seq<Step>, s': State)
    requires Inv(cfg, s) && Path(cfg, s, steps, s')
    ensures Inv(cfg, s')
    decreases |steps|
  {
    if steps != [] {
      StepInv(cfg, s, steps[0]);
      PathInv(cfg, Next(cfg, s, steps[0]), steps[1..], s');
    }
  }

  lemma ReachableInv(cfg: Config, s: State)
    requires Reachable(cfg, s)
    ensures Inv(cfg, s)
  {
    var n: nat, steps :| Path(cfg, Initial(cfg, n), steps, s);
    InitialInv(cfg, n);
    PathInv(cfg, Initial(cfg, n), steps, s);
  }

  /** Conservation over every run: the counter is exactly the idle connections plus what the threads
      are using, building, refreshing, warming or closing, and never exceeds the pool's size; an open
      connection has exactly one owner; every semaphore permit is either free or held. */
  lemma Conservation(cfg: Config, s: State)
    requires Reachable(cfg, s)
    ensures s.pool.inUse == |s.pool.idle| + SlotSum(s.threads) <= cfg.maxSize
    ensures forall c: Connection :: Owners(s, c) == if c in s.open then 1 else 0
    ensures s.heavyFree + PermitSum(s.threads) == cfg.heavyCap
    ensures forall t: nat :: t < |s.threads| && s.threads[t].phase.Returning? ==>
              PutIdle(s.pool, cfg.maxSize, s.threads[t].phase.con).1
  {
    ReachableInv(cfg, s);
    forall t: nat | t < |s.threads| && s.threads[t].phase.Returning?
      ensures PutIdle(s.pool, cfg.maxSize, s.threads[t].phase.con).1
    {
      QueueNeverFull(cfg, s, t);
    }
  }

  // ---- The heavy bulkhead -------------------------------------------------------------------

  lemma {:induction false} HeavySlotsBounded(ts: seq<Thread>)
    requires forall t :: 0 <= t < |ts| && ts[t].heavy ==> !ts[t].phase.Warming?
    ensures HeavySlots(ts) <= PermitSum(ts)
  {
    if ts != [] {
      HeavySlotsBounded(ts[1..]);
    }
  }

  /** Heavy requests never hold more of the pool than their cap. */
  lemma BulkheadHolds(cfg: Config, s: State)
    requires Reachable(cfg, s)
    ensures HeavySlots(s.threads) <= cfg.heavyCap
  {
    ReachableInv(cfg, s);
    HeavySlotsBounded(s.threads);
  }

  function Below(k: nat): set<Connection> { if k == 0 then {} else Below(k - 1) + {k - 1} }

  ghost function AllHeavy(cfg: Config, k: nat): State
    requires k <= cfg.heavyCap
  {
    State(Fields([], k, false), Below(k),
          seq(cfg.heavyCap, i requires i >= 0 => if i < k then Thread(Using(i), true) else Thread(Outside, false)),
          cfg.heavyCap - k, k)
  }

  lemma AnotherHeavy(cfg: Config, k: nat)
    requires k < cfg.heavyCap <= cfg.maxSize
    ensures Path(cfg, AllHeavy(cfg, k), [TakeHeavySlot(k, false), Acquire(k, false), BuildOk(k)],
                 AllHeavy(cfg, k + 1))
  {
    var s0 := AllHeavy(cfg, k);
    var s1 := Next(cfg, s0, TakeHeavySlot(k, false));
    var s2 := Next(cfg, s1, Acquire(k, false));
    var s3 := Next(cfg, s2, BuildOk(k));
    assert s3.threads == AllHeavy(cfg, k + 1).threads;
    assert s3.open == AllHeavy(cfg, k + 1).open;
    assert Path(cfg, s3, [], AllHeavy(cfg, k + 1));
    assert Path(cfg, s2, [BuildOk(k)], AllHeavy(cfg, k + 1));
    assert [Acquire(k, false), BuildOk(k)][1..] == [BuildOk(k)];
    assert Path(cfg, s1, [Acquire(k, false), BuildOk(k)], AllHeavy(cfg, k + 1));
    assert [TakeHeavySlot(k, false), Acquire(k, false), BuildOk(k)][1..] == [Acquire(k, false), BuildOk(k)];
  }

  lemma {:induction false} PathConcat(cfg: Config, a: State, xs: seq<Step>, b: State, ys: seq<Step>, c: State)
    requires Path(cfg, a, xs, b) && Path(cfg, b, ys, c)
    ensures Path(cfg, a, xs + ys, c)
    decreases |xs|
  {
    if xs == [] {
      assert xs + ys == ys;
    } else {
      PathConcat(cfg, Next(cfg, a, xs[0]), xs[1..], b, ys, c);
      assert (xs + ys)[1..] == xs[1..] + ys;
    }
  }

  lemma {:induction false} AllHeavyPath(cfg: Config, k: nat) returns (steps: seq<Step>)
    requires k <= cfg.heavyCap <= cfg.maxSize
    ensures Path(cfg, Initial(cfg, cfg.heavyCap), steps, AllHeavy(cfg, k))
  {
    if k == 0 {
      steps := [];
      assert Initial(cfg, cfg.heavyCap).threads == AllHeavy(cfg, 0).threads;
      assert AllHeavy(cfg, 0).open == {};
    } else {
      var before := AllHeavyPath(cfg, k - 1);
      var more := [TakeHeavySlot(k - 1, false), Acquire(k - 1, false), BuildOk(k - 1)];
      AnotherHeavy(cfg, k - 1);
      PathConcat(cfg, Initial(cfg, cfg.heavyCap), before, AllHeavy(cfg, k - 1), more, AllHeavy(cfg, k));
      steps := before + more;
    }
  }

  lemma {:induction false} AllHeavySlots(ts: seq<Thread>)
    requires forall t :: 0 <= t < |ts| ==> ts[t].heavy && ts[t].phase.Using?
    ensures HeavySlots(ts) == |ts|
  {
    if ts != [] {
      AllHeavySlots(ts[1..]);
    }
  }

  /** The cap is reached by some run, so a light slot is guaranteed exactly when the cap is below the
      pool's size: with a one-connection pool, or an override at or above the size, heavy requests
      can occupy everything. */
  lemma LightSlotGuaranteedIff(maxSize: nat, override: Override)
    requires maxSize >= 1
    ensures var cfg := Config(maxSize, HeavyCap(maxSize, override));
            (forall s :: Reachable(cfg, s) ==> HeavySlots(s.threads) < maxSize)
            <==> maxSize >= 2 && (override.Limit? ==> override.n < maxSize)
  {
    var cfg := Config(maxSize, HeavyCap(maxSize, override));
    HeavyCapLeavesRoom(maxSize, override);
    if cfg.heavyCap < maxSize {
      forall s | Reachable(cfg, s) ensures HeavySlots(s.threads) < maxSize {
        BulkheadHolds(cfg, s);
      }
    } else {
      var steps := AllHeavyPath(cfg, cfg.heavyCap);
      var full := AllHeavy(cfg, cfg.heavyCap);
      AllHeavySlots(full.threads);
      assert Reachable(cfg, full);
    }
  }

  // ---- Draining -----------------------------------------------------------------------------

  /** While draining, no step raises the counter, and only the end of the drain clears the flag. */
  lemma DrainMonotone(cfg: Config, s: State, step: Step)
    requires Inv(cfg, s) && Enabled(cfg, s, step) && s.pool.draining
    ensures Next(cfg, s, step).pool.inUse <= s.pool.inUse
    ensures Next(cfg, s, step).pool.draining <==> !step.DrainEnds?
  {
    if step.WarmReturn? {
      QueueNeverFull(cfg, s, step.t);
    }
  }

  /** `wait_drained` returns True when it reads a counter that is not positive. At that moment nothing
      of the pool is open, idle, being built or being closed. */
  lemma DrainedMeansClosed(cfg: Config, s: State)
    requires Inv(cfg, s) && s.pool.inUse <= 0
    ensures s.pool.inUse == 0 && s.pool.idle == [] && s.open == {}
    ensures forall t :: 0 <= t < |s.threads| ==> Slots(s.threads[t].phase) == 0 && !s.threads[t].phase.Building?
  {
    forall t | 0 <= t < |s.threads|
      ensures Slots(s.threads[t].phase) == 0 && !s.threads[t].phase.Building?
    {
      SlotMember(s.threads, t);
    }
    forall c: Connection ensures c !in s.open {
      NoSlotsNoOwner(s.threads, c);
      assert Owners(s, c) == 0;
    }
  }

  lemma {:induction false} NoSlotsNoOwner(ts: seq<Thread>, c: Connection)
    requires SlotSum(ts) == 0
    ensures OwnerSum(ts, c) == 0
  {
    if ts != [] {
      NoSlotsNoOwner(ts[1..], c);
    }
  }

  lemma {:induction false} DrainingPath(cfg: Config, s: State, steps: seq<Step>, s': State)
    requires Inv(cfg, s) && s.pool.draining && Path(cfg, s, steps, s') && DrainEnds !in steps
    ensures Inv(cfg, s') && s'.pool.draining && s'.pool.inUse <= s.pool.inUse
    decreases |steps|
  {
    if steps != [] {
      assert steps[0] in steps;
      DrainMonotone(cfg, s, steps[0]);
      StepInv(cfg, s, steps[0]);
      DrainingPath(cfg, Next(cfg, s, steps[0]), steps[1..], s');
    }
  }

  /** Drain safety over every interleaving. On a run that does not end the drain the counter never
      rises, and once it has reached zero no connection is open and none is being built, to the end
      of the run. */
  lemma DrainSafety(cfg: Config, s: State, steps: seq<Step>, s': State)
    requires Reachable(cfg, s) && s.pool.draining
    requires Path(cfg, s, steps, s') && DrainEnds !in steps
    ensures s'.pool.draining && s'.pool.inUse <= s.pool.inUse
    ensures s.pool.inUse <= 0 ==> s'.pool.inUse == 0 && s'.open == {} && s'.pool.idle == []
    ensures s.pool.inUse <= 0 ==> forall t :: 0 <= t < |s'.threads| ==> Slots(s'.threads[t].phase) == 0
  {
    ReachableInv(cfg, s);
    DrainingPath(cfg, s, steps, s');
    if s.pool.inUse <= 0 {
      DrainedMeansClosed(cfg, s');
    }
  }

  /** A thread that read the draining flag before it was set and has a connection to re-queue. */
  predicate Crossing(t: Thread) {
    t.phase.Returning? || (t.phase.Warming? && t.phase.cons != [])
  }

  ghost predicate SomeCrossing(s: State) {
    exists t :: 0 <= t < |s.threads| && Crossing(s.threads[t])
  }

  predicate Redrain(step: Step) { step.DrainBegins? || step.DrainEnds? || step.IdleDropped? }

  lemma BlockedStep(cfg: Config, s: State, step: Step)
    requires Inv(cfg, s) && Enabled(cfg, s, step) && s.pool.draining && !Redrain(step)
    requires s.pool.idle != [] || SomeCrossing(s)
    ensures Next(cfg, s, step).pool.idle != [] || SomeCrossing(Next(cfg, s, step))
  {
    var s' := Next(cfg, s, step);
    QueueNeverFull(cfg, s, step.t);
    if s.pool.idle == [] {
      var t :| 0 <= t < |s.threads| && Crossing(s.threads[t]);
      if step.t != t {
        assert Crossing(s'.threads[t]);
      }
    }
  }

  lemma {:induction false} BlockedPath(cfg: Config, s: State, steps: seq<Step>, s': State)
    requires Inv(cfg, s) && s.pool.draining && Path(cfg, s, steps, s')
    requires forall x <- steps :: !Redrain(x)
    requires s.pool.idle != [] || SomeCrossing(s)
    ensures s'.pool.inUse > 0
    decreases |steps|
  {
    if steps == [] {
      if s.pool.idle == [] {
        var t :| 0 <= t < |s.threads| && Crossing(s.threads[t]);
        SlotMember(s.threads, t);
      }
    } else {
      assert steps[0] in steps;
      BlockedStep(cfg, s, steps[0]);
      DrainMonotone(cfg, s, steps[0]);
      StepInv(cfg, s, steps[0]);
      BlockedPath(cfg, Next(cfg, s, steps[0]), steps[1..], s');
    }
  }

  lemma ClearStep(cfg: Config, s: State, step: Step)
    requires Inv(cfg, s) && Enabled(cfg, s, step) && s.pool.draining && !step.DrainEnds?
    requires s.pool.idle == [] && !SomeCrossing(s)
    ensures Next(cfg, s, step).pool.idle == [] && !SomeCrossing(Next(cfg, s, step))
  {
    var s' := Next(cfg, s, step);
    forall t | 0 <= t < |s'.threads| ensures !Crossing(s'.threads[t]) {
      assert !Crossing(s.threads[t]);
    }
  }

  lemma {:induction false} ClearPath(cfg: Config, s: State, steps: seq<Step>, s': State)
    requires Inv(cfg, s) && s.pool.draining && Path(cfg, s, steps, s') && DrainEnds !in steps
    requires s.pool.idle == [] && !SomeCrossing(s)
    ensures Inv(cfg, s') && s'.pool.draining && s'.pool.idle == []
    decreases |steps|
  {
    if steps != [] {
      assert steps[0] in steps;
      ClearStep(cfg, s, steps[0]);
      DrainMonotone(cfg, s, steps[0]);
      StepInv(cfg, s, steps[0]);
      ClearPath(cfg, Next(cfg, s, steps[0]), steps[1..], s');
    }
  }

  ghost predicate Quiet(s: State) {
    forall t :: 0 <= t < |s.threads| ==> Slots(s.threads[t].phase) == 0
  }

  /** Whether a drain can complete is settled when it begins. Draining is tested outside the lock, so
      a thread that has already passed the test re-queues its connection into the draining pool, where
      nothing takes it out again: from then on the counter never reaches zero. If no thread is past
      the test, the pool is drained as soon as every thread has let go. */
  lemma DrainCompletesIff(cfg: Config, s: State, steps: seq<Step>, s': State)
    requires Inv(cfg, s)
    requires Path(cfg, Next(cfg, s, DrainBegins), steps, s')
    requires forall x <- steps :: !Redrain(x)
    requires Quiet(s')
    ensures s'.pool.inUse <= 0 <==> !SomeCrossing(s)
  {
    var d := Next(cfg, s, DrainBegins);
    StepInv(cfg, s, DrainBegins);
    assert d.threads == s.threads;
    if SomeCrossing(s) {
      BlockedPath(cfg, d, steps, s');
    } else {
      ClearPath(cfg, d, steps, s');
      QuietSum(s'.threads);
    }
  }

  lemma {:induction false} QuietSum(ts: seq<Thread>)
    requires forall t :: 0 <= t < |ts| ==> Slots(ts[t].phase) == 0
    ensures SlotSum(ts) == 0
  {
    if ts != [] {
      QuietSum(ts[1..]);
    }
  }

  lemma Extend(cfg: Config, s: State, x: Step, s': State)
    requires Reachable(cfg, s) && Enabled(cfg, s, x) && Next(cfg, s, x) == s'
    ensures Reachable(cfg, s')
  {
    var n: nat, steps :| Path(cfg, Initial(cfg, n), steps, s);
    assert Path(cfg, s', [], s');
    PathConcat(cfg, Initial(cfg, n), steps, s, [x], s');
  }

  function Solo(phase: Phase, pool: Fields, open: set<Connection>): State {
    State(pool, open, [Thread(phase, false)], 1, |open|)
  }

  lemma UsingReachable()
    ensures Reachable(Config(1, 1), Solo(Using(0), Fields([], 1, false), {0}))
  {
    var cfg := Config(1, 1);
    var start := Solo(Outside, Fields([], 0, false), {});
    assert Path(cfg, Initial(cfg, 1), [], start) by {
      assert Initial(cfg, 1).threads == start.threads;
    }
    var wanting := Solo(Wanting(false), Fields([], 0, false), {});
    Extend(cfg, start, StartLight(0, false), wanting);
    var building := Solo(Building, Fields([], 1, false), {});
    Extend(cfg, wanting, Acquire(0, false), building);
    Extend(cfg, building, BuildOk(0), Solo(Using(0), Fields([], 1, false), {0}));
  }

  lemma CrossingReachable()
    ensures Reachable(Config(1, 1), Solo(Returning(0), Fields([], 1, true), {0}))
  {
    var cfg := Config(1, 1);
    var using := Solo(Using(0), Fields([], 1, false), {0});
    UsingReachable();
    var returning := Solo(Returning(0), Fields([], 1, false), {0});
    Extend(cfg, using, Release(0, false), returning);
    Extend(cfg, returning, DrainBegins, Solo(Returning(0), Fields([], 1, true), {0}));
  }

  /** Such a run exists: one thread returns its connection just as the drain begins. The pool is left
      draining with an open idle connection and nobody inside, so `wait_drained` can only time out. */
  lemma StuckDrain()
    ensures var stuck := Solo(Outside, Fields([0], 1, true), {0});
            Reachable(Config(1, 1), stuck) && Quiet(stuck)
  {
    var cfg := Config(1, 1);
    var crossing := Solo(Returning(0), Fields([], 1, true), {0});
    CrossingReachable();
    var leaving := Solo(Leaving, Fields([0], 1, true), {0});
    Extend(cfg, crossing, Requeue(0), leaving);
    Extend(cfg, leaving, Leave(0), Solo(Outside, Fields([0], 1, true), {0}));
  }
}
