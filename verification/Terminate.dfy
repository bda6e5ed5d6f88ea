/** `terminate` of scripts/local_stack_processes.py: signalling a captured process tree while the
    process table changes underneath. */
module Terminate {
  import opened ProcessTree
  import opened Wrappers

  datatype Kind = Term | Kill

  /** A signal, and the number of the table reading that immediately preceded it. */
  datatype Signal = Signal(pid: nat, kind: Kind, after: nat)

  datatype Reply = Delivered | Gone | Denied

  /** The operating system as the script sees it: the table readings still to come, and how each
      signal attempt will be answered. Nothing is assumed about either. */
  class System {
    const readings: nat -> Snapshot
    const replies: nat -> Reply
    var taken: nat
    var signals: seq<Signal>

    constructor (readings: nat -> Snapshot, replies: nat -> Reply)
      ensures this.readings == readings && this.replies == replies && taken == 0 && signals == []
    {
      this.readings, this.replies, taken, signals := readings, replies, 0, [];
    }

    method Read() returns (s: Snapshot)
      modifies this`taken
      ensures s == readings(old(taken)) && taken == old(taken) + 1
    {
      s := readings(taken);
      taken := taken + 1;
    }
  }

  predicate SameProcess(expected: Process, table: Snapshot, pid: nat) {
    pid in table && expected.pid == table[pid].pid && expected.born == table[pid].born
  }

  function LiveRoots(roots: set<nat>, captured: Snapshot, current: Snapshot): set<nat> {
    set r | r in roots && r in captured && SameProcess(captured[r], current, r)
  }

  /** Everything that will be signalled: the captured tree, whatever has become of its shape, and the
      present descendants of its live roots. A captured identity wins over the present one. */
  ghost function Targets(roots: set<nat>, captured: Snapshot, current: Snapshot, excluded: set<nat>): Snapshot {
    var selected := DescendantSet(current, LiveRoots(roots, captured, current), excluded);
    (map p | p in selected && p in current :: current[p])
    + (map p | p in captured && p !in excluded && p > 1 :: captured[p])
  }

  lemma SelectedNotExcluded(s: Snapshot, roots: set<nat>, excluded: set<nat>, d: nat)
    requires d in DescendantSet(s, roots, excluded)
    ensures d !in excluded
    ensures (0 in s ==> s[0].ppid <= 1) && 1 in excluded ==> d > 1
  {
    var r :| r in Start(roots, excluded) && Under(s, d, r, excluded);
    var n: nat :| Climbs(s, d, r, n, excluded);
    if d <= 1 && (0 in s ==> s[0].ppid <= 1) && 1 in excluded {
      LowClimb(s, d, r, n, excluded);
    }
  }

  /** Nothing excluded is ever a target; pid 1 never; pid 0 only if the table puts it below a target. */
  lemma TargetsSafe(roots: set<nat>, captured: Snapshot, current: Snapshot, excluded: set<nat>, pid: nat)
    requires 1 in excluded && pid in Targets(roots, captured, current, excluded)
    ensures pid !in excluded && pid != 1
    ensures pid in captured || pid in DescendantSet(current, LiveRoots(roots, captured, current), excluded)
    ensures pid <= 1 ==> pid == 0 && 0 in DescendantSet(current, LiveRoots(roots, captured, current), excluded)
    ensures (0 in current ==> current[0].ppid <= 1) ==> pid > 1
  {
    var live := LiveRoots(roots, captured, current);
    if pid in DescendantSet(current, live, excluded) {
      SelectedNotExcluded(current, live, excluded, pid);
    }
  }

  /** What is signalled: what was captured, under its captured identity, and what is now below a live root, under its
      present one; the excluded and pids 0 and 1 as captured are left out. */
  lemma TargetsIff(roots: set<nat>, captured: Snapshot, current: Snapshot, excluded: set<nat>, pid: nat)
    ensures var targets := Targets(roots, captured, current, excluded);
            var kept := pid in captured && pid !in excluded && pid != 0 && pid != 1;
            var below := pid in current && pid in DescendantSet(current, LiveRoots(roots, captured, current), excluded);
            && (pid in targets <==> kept || below)
            && (kept ==> targets[pid] == captured[pid])
            && (!kept && below ==> targets[pid] == current[pid])
  {
  }

  /** A root is live if the table still shows it with the pid and the birth that were captured. */
  lemma LiveRootIff(roots: set<nat>, captured: Snapshot, current: Snapshot, r: nat)
    ensures r in LiveRoots(roots, captured, current)
       <==> (&& r in roots && r in captured && r in current
             && current[r].pid == captured[r].pid && current[r].born == captured[r].born)
  {
  }

  /** Pid 0 is a target exactly when the table lists it below a process that is itself selected. */
  lemma PidZeroIff(roots: set<nat>, captured: Snapshot, current: Snapshot, excluded: set<nat>)
    ensures 0 in Targets(roots, captured, current, excluded)
       <==> (&& 0 in current && 0 !in excluded
             && current[0].ppid in DescendantSet(current, LiveRoots(roots, captured, current), excluded))
  {
    var live := LiveRoots(roots, captured, current);
    if 0 in current && 0 in DescendantSet(current, live, excluded) {
      var r :| r in Start(live, excluded) && Under(current, 0, r, excluded);
      var n: nat :| Climbs(current, 0, r, n, excluded);
      assert Climbs(current, current[0].ppid, r, n - 1, excluded);
      assert n == 1 ==> current[0].ppid == r;
    } else if 0 in current && 0 !in excluded && current[0].ppid in DescendantSet(current, live, excluded) {
      var r :| r in Start(live, excluded) && Under(current, current[0].ppid, r, excluded);
      UnderParent(current, 0, r, excluded);
    }
  }

  // ---- The order of signals -----------------------------------------------------------------

  ghost function Depth(targets: Snapshot, pid: nat): nat { |AncestorSet(targets, pid)| }

  /** Sort key: depth first, then pid. */
  ghost predicate Before(targets: Snapshot, a: nat, b: nat) {
    Depth(targets, a) < Depth(targets, b) || (Depth(targets, a) == Depth(targets, b) && a < b)
  }

  ghost predicate IsOrder(targets: Snapshot, order: seq<nat>) {
    && (forall p :: p in order <==> p in targets)
    && (forall i, j :: 0 <= i < j < |order| ==> Before(targets, order[i], order[j]))
  }

  /** The order is by number of ancestors among the targets, then by pid, and lists every target once. */
  lemma OrderLists(targets: Snapshot, order: seq<nat>, i: nat, j: nat)
    requires IsOrder(targets, order) && i < j < |order|
    ensures order[i] != order[j] && order[i] in targets
    ensures |AncestorSet(targets, order[i])| <= |AncestorSet(targets, order[j])|
    ensures |AncestorSet(targets, order[i])| == |AncestorSet(targets, order[j])| ==> order[i] < order[j]
  {
    assert order[i] in order;
  }

  lemma SubsetSize(a: set<nat>, b: set<nat>)
    requires a <= b
    ensures |a| <= |b| && (a < b ==> |a| < |b|)
  {
    assert b == a + (b - a);
    assert |b| == |a| + |b - a|;
    if a < b {
      assert b - a != {};
    }
  }

  /** A parent that is itself a target is signalled before its child exactly when the child is not its
      own ancestor in the target table, or its pid happens to be larger. */
  lemma ParentFirstIff(targets: Snapshot, child: nat)
    requires child in targets && child > 1
    requires targets[child].ppid in targets && targets[child].ppid > 1 && targets[child].ppid != child
    ensures Before(targets, targets[child].ppid, child)
       <==> !OnCycle(targets, child) || targets[child].ppid < child
  {
    var parent := targets[child].ppid;
    ParentAbove(targets, child);
    if OnCycle(targets, child) {
      CycleClosed(targets, child, parent);
      forall q ensures q in AncestorSet(targets, child) <==> q in AncestorSet(targets, parent) {
        AncestorSetMember(targets, child, q);
        AncestorSetMember(targets, parent, q);
        if Above(targets, child, q) {
          AboveTransitive(targets, parent, child, q);
        }
        if Above(targets, parent, q) {
          AboveTransitive(targets, child, parent, q);
        }
      }
      assert AncestorSet(targets, child) == AncestorSet(targets, parent);
    } else {
      assert Above(targets, parent, parent) by {
        assert Up(targets, parent, 0) == Some(parent);
      }
      if Above(targets, parent, child) {
        AroundCycle(targets, child, parent);
      } else {
        AncestorsShrink(targets, child, parent);
        SubsetSize(AncestorSet(targets, parent), AncestorSet(targets, child));
      }
    }
  }

  lemma {:induction false} LeastExists(targets: Snapshot, todo: set<nat>) returns (m: nat)
    requires todo != {}
    ensures m in todo && forall p :: p in todo && p != m ==> Before(targets, m, p)
    decreases todo
  {
    var x :| x in todo;
    var rest := todo - {x};
    assert forall p :: p in todo <==> p == x || p in rest;
    m := x;
    if rest != {} {
      var least := LeastExists(targets, rest);
      if Before(targets, least, x) {
        m := least;
      } else {
        forall p | p in rest ensures Before(targets, x, p) {
          assert p == least || Before(targets, least, p);
        }
      }
    }
  }

  /** `sorted(targets, key=(depth, pid))`. */
  method Depths(targets: Snapshot) returns (depths: map<nat, nat>)
    ensures depths.Keys == targets.Keys && forall p :: p in depths ==> depths[p] == Depth(targets, p)
  {
    depths := map[];
    var rest := targets.Keys;
    while rest != {}
      invariant rest <= targets.Keys && depths.Keys == targets.Keys - rest
      invariant forall p :: p in depths ==> depths[p] == Depth(targets, p)
      decreases rest
    {
      var p :| p in rest;
      var above := Ancestors(targets, p);
      depths := depths[p := |above|];
      rest := rest - {p};
    }
  }

  /** The least of some targets under the sort key. */
  method First(targets: Snapshot, depths: map<nat, nat>, todo: set<nat>) returns (m: nat)
    requires todo != {} && todo <= depths.Keys && forall p :: p in depths ==> depths[p] == Depth(targets, p)
    ensures m in todo && forall q :: q in todo && q != m ==> Before(targets, m, q)
  {
    ghost var least := LeastExists(targets, todo);
    assert forall q :: q in todo && q != least ==>
             depths[least] < depths[q] || (depths[least] == depths[q] && least < q);
    m :| m in todo && forall q :: q in todo && q != m ==>
           depths[m] < depths[q] || (depths[m] == depths[q] && m < q);
  }

  method SortTargets(targets: Snapshot) returns (order: seq<nat>)
    ensures IsOrder(targets, order)
  {
    var depths := Depths(targets);
    order := [];
    var todo := targets.Keys;
    while todo != {}
      invariant todo <= targets.Keys
      invariant forall p :: p in order <==> p in targets && p !in todo
      invariant forall i, j :: 0 <= i < j < |order| ==> Before(targets, order[i], order[j])
      invariant forall i, p :: 0 <= i < |order| && p in todo ==> Before(targets, order[i], p)
      decreases todo
    {
      var m := First(targets, depths, todo);
      order := order + [m];
      todo := todo - {m};
    }
  }

  // ---- Signalling ---------------------------------------------------------------------------

  datatype Outcome =
    | Finished
    | PermissionDenied(pid: nat)
    | Incomplete(survivors: set<nat>)

  function Alive(targets: Snapshot, table: Snapshot): set<nat> {
    set p | p in targets && SameProcess(targets[p], table, p)
  }

  /** The table shows the target with its pid and its birth. */
  predicate StillThere(targets: Snapshot, table: Snapshot, p: nat) {
    p in targets && p in table && table[p].pid == targets[p].pid && table[p].born == targets[p].born
  }

  predicate NoneLeft(targets: Snapshot, table: Snapshot) { forall p :: p in targets ==> !StillThere(targets, table, p) }

  /** A return that is no refusal says who is left in the last reading: nobody, or the named survivors. */
  ghost predicate Tells(outcome: Outcome, targets: Snapshot, table: Snapshot) {
    && (outcome.Finished? ==> NoneLeft(targets, table))
    && (outcome.Incomplete? ==> !NoneLeft(targets, table) && forall p :: p in outcome.survivors <==> StillThere(targets, table, p))
  }

  lemma FinalTells(outcome: Outcome, targets: Snapshot, table: Snapshot)
    requires !outcome.PermissionDenied? ==> outcome == Final(Alive(targets, table))
    ensures Tells(outcome, targets, table)
  {
    AliveIs(targets, table);
  }

  lemma AliveIs(targets: Snapshot, table: Snapshot)
    ensures forall p :: p in Alive(targets, table) <==> StillThere(targets, table, p)
  {
  }

  /** The order speaks of targets only. */
  predicate Covers(targets: Snapshot, order: seq<nat>) { forall i :: 0 <= i < |order| ==> order[i] in targets }

  /** The signals of the first `n` turns of one pass whose readings start at number `t`: turn `i` reads
      the table afresh and signals `order[i]` only if that reading shows the expected process. */
  function Pass(readings: nat -> Snapshot, targets: Snapshot, order: seq<nat>, kind: Kind, t: nat, n: nat): seq<Signal>
    requires n <= |order| && Covers(targets, order)
    decreases n
  {
    if n == 0 then []
    else
      var pid := order[n - 1];
      Pass(readings, targets, order, kind, t, n - 1)
      + if SameProcess(targets[pid], readings(t + n - 1), pid) then [Signal(pid, kind, t + n - 1)] else []
  }

  /** From signal `from` on, none is refused but the last, if the pass was cut short. */
  predicate Refusals(replies: nat -> Reply, signals: seq<Signal>, from: nat, denied: bool) {
    forall i :: from <= i < |signals| ==> (replies(i) == Denied <==> denied && i == |signals| - 1)
  }

  lemma RefusalsJoin(replies: nat -> Reply, signals: seq<Signal>, more: seq<Signal>, denied: bool)
    requires Refusals(replies, signals, 0, false) && Refusals(replies, signals + more, |signals|, denied)
    requires denied ==> more != []
    ensures Refusals(replies, signals + more, 0, denied)
  {
  }

  lemma RefusalNext(replies: nat -> Reply, signals: seq<Signal>, g: Signal, from: nat, denied: bool)
    requires Refusals(replies, signals, from, false) && (replies(|signals|) == Denied <==> denied)
    ensures Refusals(replies, signals + [g], from, denied)
  {
  }

  lemma NoPass(readings: nat -> Snapshot, targets: Snapshot, order: seq<nat>, kind: Kind, t: nat, signals: seq<Signal>)
    requires Covers(targets, order)
    ensures signals + Pass(readings, targets, order, kind, t, 0) == signals
  {
  }

  lemma PassNext(readings: nat -> Snapshot, targets: Snapshot, order: seq<nat>, kind: Kind, t: nat, n: nat)
    requires n < |order| && Covers(targets, order)
    ensures Pass(readings, targets, order, kind, t, n + 1) == Pass(readings, targets, order, kind, t, n)
              + if SameProcess(targets[order[n]], readings(t + n), order[n]) then [Signal(order[n], kind, t + n)] else []
  {
  }

  /** `send`: one pass over the targets, cut short by a refused signal. */
  method Send(system: System, targets: Snapshot, order: seq<nat>, kind: Kind) returns (n: nat, denied: bool)
    requires Covers(targets, order)
    modifies system
    ensures n <= |order| && system.taken == old(system.taken) + n && (!denied ==> n == |order|)
    ensures system.signals == old(system.signals) + Pass(system.readings, targets, order, kind, old(system.taken), n)
    ensures Refusals(system.replies, system.signals, |old(system.signals)|, denied)
    ensures denied ==> n > 0 && |system.signals| > |old(system.signals)|
                       && system.signals[|system.signals| - 1].pid == order[n - 1]
  {
    denied := false;
    n := 0;
    NoPass(system.readings, targets, order, kind, system.taken, system.signals);
    while n < |order|
      invariant n <= |order| && system.taken == old(system.taken) + n
      invariant system.signals == old(system.signals) + Pass(system.readings, targets, order, kind, old(system.taken), n)
      invariant Refusals(system.replies, system.signals, |old(system.signals)|, false)
    {
      var pid := order[n];
      ghost var before := system.signals;
      PassNext(system.readings, targets, order, kind, old(system.taken), n);
      n := n + 1;
      var table := system.Read();
      if SameProcess(targets[pid], table, pid) {
        var reply := system.replies(|system.signals|);
        system.signals := system.signals + [Signal(pid, kind, system.taken - 1)];
        RefusalNext(system.replies, before, system.signals[|before|], |old(system.signals)|, reply == Denied);
        if reply == Denied {
          return n, true;
        }
      }
    }
  }

  /** `survivors`, from a fresh reading. */
  method Survivors(system: System, targets: Snapshot) returns (left: set<nat>)
    modifies system`taken
    ensures system.taken == old(system.taken) + 1
    ensures left == Alive(targets, system.readings(old(system.taken)))
  {
    var now := system.Read();
    left := set p | p in targets && SameProcess(targets[p], now, p);
  }

  /** Every reading from number `from` to before `to` shows a target. */
  predicate SomeAlive(targets: Snapshot, readings: nat -> Snapshot, from: nat, to: nat) {
    forall t: nat :: from <= t < to ==> Alive(targets, readings(t)) != {}
  }

  /** The readings from number `from` to before `to` are those of one wait: each but the last shows a target, and it ends
      with none left or when the time is up. */
  predicate Waited(targets: Snapshot, readings: nat -> Snapshot, from: nat, to: nat, polls: nat) {
    && from < to <= from + polls + 1
    && SomeAlive(targets, readings, from, to - 1)
    && (Alive(targets, readings(to - 1)) == {} || to == from + polls + 1)
  }

  lemma OneMoreAlive(targets: Snapshot, readings: nat -> Snapshot, from: nat, to: nat)
    requires SomeAlive(targets, readings, from, to) && Alive(targets, readings(to)) != {}
    ensures SomeAlive(targets, readings, from, to + 1)
  {
  }

  /** `wait`: polls until nothing survives or the deadline has passed; `polls` is how often the clock
      is found before it. */
  method Await(system: System, targets: Snapshot, polls: nat)
    modifies system`taken
    ensures system.taken > old(system.taken)
    ensures Waited(targets, system.readings, old(system.taken), system.taken, polls)
  {
    var n := 0;
    var left := Survivors(system, targets);
    while left != {} && n < polls
      invariant n <= polls && system.taken == old(system.taken) + n + 1
      invariant left == Alive(targets, system.readings(system.taken - 1))
      invariant SomeAlive(targets, system.readings, old(system.taken), system.taken - 1)
      decreases polls - n
    {
      OneMoreAlive(targets, system.readings, old(system.taken), system.taken - 1);
      left := Survivors(system, targets);
      n := n + 1;
    }
  }

  /** What a whole call may do: a TERM pass, then, if reading number `k` still showed a target, a KILL
      pass; `n` and `m` tell how far each pass came. */
  function Script(readings: nat -> Snapshot, targets: Snapshot, order: seq<nat>, t: nat, n: nat, k: nat, m: nat): seq<Signal>
    requires n <= |order| && m <= |order| && Covers(targets, order)
  {
    Pass(readings, targets, order, Term, t, n) + Pass(readings, targets, order, Kill, k + 1, m)
  }

  /** How a call went. `order` is the signalling order, `n` and `m` the lengths of the TERM and KILL
      passes, and `k` the reading that decided whether to kill. */
  datatype Trace = Trace(order: seq<nat>, n: nat, k: nat, m: nat)

  ghost predicate Explains(readings: nat -> Snapshot, replies: nat -> Reply, signals: seq<Signal>, t: nat, targets: Snapshot,
                           trace: Trace, outcome: Outcome)
  {
    IsOrder(targets, trace.order) && Accounts(readings, replies, signals, t, targets, trace, outcome)
  }

  /** The signals sent are those of the passes, and the replies to them give the outcome. */
  ghost predicate Accounts(readings: nat -> Snapshot, replies: nat -> Reply, signals: seq<Signal>, t: nat, targets: Snapshot,
                           trace: Trace, outcome: Outcome)
    requires Covers(targets, trace.order)
  {
    && trace.n <= |trace.order| && trace.m <= |trace.order| && t + trace.n <= trace.k + 1
    && signals == Script(readings, targets, trace.order, t, trace.n, trace.k, trace.m)
    && Complete(readings, targets, trace, outcome)
    && Answered(replies, signals, outcome)
  }

  /** A call that was not refused a signal waited the grace period before it decided whether to kill, and the last one
      after it killed, either only as long as a target was left. */
  predicate Patient(readings: nat -> Snapshot, t: nat, taken: nat, targets: Snapshot, trace: Trace, outcome: Outcome, grace: nat, last: nat) {
    !outcome.PermissionDenied? ==>
      && Waited(targets, readings, t + trace.n, trace.k, grace)
      && taken > 0
      && (Alive(targets, readings(trace.k)) != {} ==> Waited(targets, readings, trace.k + 1 + trace.m, taken - 1, last))
  }

  /** Only a refused signal cuts a pass short, and the KILL pass is made just when a target was left. */
  predicate Complete(readings: nat -> Snapshot, targets: Snapshot, trace: Trace, outcome: Outcome) {
    && (trace.m > 0 ==> trace.n == |trace.order| && Alive(targets, readings(trace.k)) != {})
    && (!outcome.PermissionDenied? ==>
          && trace.n == |trace.order|
          && trace.m == (if Alive(targets, readings(trace.k)) == {} then 0 else |trace.order|))
  }

  /** A refusal is always of the last signal, and always reported. */
  predicate Answered(replies: nat -> Reply, signals: seq<Signal>, outcome: Outcome) {
    && (outcome.PermissionDenied? ==> |signals| > 0 && signals[|signals| - 1].pid == outcome.pid)
    && Refusals(replies, signals, 0, outcome.PermissionDenied?)
  }

  method ChooseTargets(roots: set<nat>, captured: Snapshot, current: Snapshot, excluded: set<nat>) returns (targets: Snapshot)
    ensures targets == Targets(roots, captured, current, excluded)
  {
    var live := set r | r in roots && r in captured && SameProcess(captured[r], current, r);
    var selected := Descendants(current, live, excluded);
    targets := (map p | p in selected && p in current :: current[p])
             + (map p | p in captured && p !in excluded && p > 1 :: captured[p]);
  }

  /** How a call over chosen targets ended. */
  ghost predicate Ended(readings: nat -> Snapshot, replies: nat -> Reply, signals: seq<Signal>, t: nat, taken: nat, targets: Snapshot,
                        trace: Trace, outcome: Outcome, grace: nat, last: nat)
    requires Covers(targets, trace.order)
  {
    && Accounts(readings, replies, signals, t, targets, trace, outcome)
    && Patient(readings, t, taken, targets, trace, outcome, grace, last)
    && taken > 0 && Tells(outcome, targets, readings(taken - 1))
  }

  /** A TERM pass cut short by a refusal. */
  lemma TermAccounts(readings: nat -> Snapshot, replies: nat -> Reply, signals: seq<Signal>, t: nat, taken: nat, targets: Snapshot,
                     trace: Trace, outcome: Outcome, grace: nat, last: nat)
    requires Covers(targets, trace.order)
    requires Termed(readings, replies, signals, t, targets, trace.order, trace.n, true)
    requires trace.m == 0 && t + trace.n <= trace.k + 1 && outcome == PermissionDenied(trace.order[trace.n - 1])
    requires taken > 0
    ensures Ended(readings, replies, signals, t, taken, targets, trace, outcome, grace, last)
  {
    assert Pass(readings, targets, trace.order, Kill, trace.k + 1, 0) == [];
    assert signals + [] == signals;
  }

  /** A whole TERM pass and what followed it. */
  lemma KillAccounts(readings: nat -> Snapshot, replies: nat -> Reply, sent: seq<Signal>, signals: seq<Signal>, t: nat,
                     targets: Snapshot, trace: Trace, outcome: Outcome)
    requires Covers(targets, trace.order)
    requires Termed(readings, replies, sent, t, targets, trace.order, trace.n, false) && t + trace.n <= trace.k + 1
    requires Followed(readings, replies, sent, signals, trace.k + 1, targets, trace.order, Alive(targets, readings(trace.k)), trace.m, outcome)
    ensures Accounts(readings, replies, signals, t, targets, trace, outcome)
  {
    RefusalsJoin(replies, sent, Pass(readings, targets, trace.order, Kill, trace.k + 1, trace.m), outcome.PermissionDenied?);
  }

  /** The two passes of `terminate` over chosen targets. */
  method Stop(system: System, targets: Snapshot, order: seq<nat>, grace: nat, last: nat)
      returns (outcome: Outcome, ghost trace: Trace)
    requires system.signals == [] && Covers(targets, order)
    modifies system
    ensures system.taken > old(system.taken) && trace.order == order
    ensures Ended(system.readings, system.replies, system.signals, old(system.taken), system.taken, targets, trace, outcome, grace, last)
  {
    ghost var t := system.taken;
    var n, denied, left := TermAll(system, targets, order, grace);
    if denied {
      outcome, trace := PermissionDenied(order[n - 1]), Trace(order, n, system.taken - 1, 0);
      TermAccounts(system.readings, system.replies, system.signals, t, system.taken, targets, trace, outcome, grace, last);
    } else {
      outcome, trace := AfterTerm(system, targets, order, left, last, t, grace);
    }
  }

  lemma AfterEnds(readings: nat -> Snapshot, replies: nat -> Reply, sent: seq<Signal>, signals: seq<Signal>, t: nat, taken: nat,
                  targets: Snapshot, order: seq<nat>, k: nat, m: nat, left: set<nat>, outcome: Outcome, grace: nat, last: nat)
    requires Covers(targets, order) && taken > 0 && t + |order| <= k + 1 && left == Alive(targets, readings(k))
    requires Termed(readings, replies, sent, t, targets, order, |order|, false) && Waited(targets, readings, t + |order|, k, grace)
    requires Followed(readings, replies, sent, signals, k + 1, targets, order, left, m, outcome)
    requires !outcome.PermissionDenied? && left != {} ==> Waited(targets, readings, k + 1 + m, taken - 1, last)
    requires Tells(outcome, targets, readings(taken - 1))
    ensures Ended(readings, replies, signals, t, taken, targets, Trace(order, |order|, k, m), outcome, grace, last)
  {
    KillAccounts(readings, replies, sent, signals, t, targets, Trace(order, |order|, k, m), outcome);
  }

  /** What follows a TERM pass that was not cut short. */
  method AfterTerm(system: System, targets: Snapshot, order: seq<nat>, left: set<nat>, last: nat, ghost t: nat, ghost grace: nat)
      returns (outcome: Outcome, ghost trace: Trace)
    requires Covers(targets, order) && t + |order| < system.taken && Waited(targets, system.readings, t + |order|, system.taken - 1, grace)
    requires left == Alive(targets, system.readings(system.taken - 1))
    requires Termed(system.readings, system.replies, system.signals, t, targets, order, |order|, false)
    modifies system
    ensures system.taken > old(system.taken) && trace.order == order
    ensures Ended(system.readings, system.replies, system.signals, t, system.taken, targets, trace, outcome, grace, last)
  {
    ghost var sent, k := system.signals, system.taken - 1;
    var m;
    outcome, m := Finish(system, targets, order, left, last);
    trace := Trace(order, |order|, k, m);
    AfterEnds(system.readings, system.replies, sent, system.signals, t, system.taken, targets, order, k, m, left, outcome, grace, last);
  }

  function Final(left: set<nat>): Outcome { if left == {} then Finished else Incomplete(left) }

  /** After the TERM pass: a KILL pass of `m` turns whose readings start at number `t`, if anything was left. */
  ghost predicate Followed(readings: nat -> Snapshot, replies: nat -> Reply, sent: seq<Signal>, signals: seq<Signal>, t: nat,
                           targets: Snapshot, order: seq<nat>, left: set<nat>, m: nat, outcome: Outcome)
    requires Covers(targets, order)
  {
    && m <= |order| && signals == sent + Pass(readings, targets, order, Kill, t, m)
    && (m > 0 ==> left != {})
    && (!outcome.PermissionDenied? ==> m == if left == {} then 0 else |order|)
    && Refusals(replies, signals, |sent|, outcome.PermissionDenied?)
    && (outcome.PermissionDenied? ==> |signals| > |sent| && signals[|signals| - 1].pid == outcome.pid)
  }

  /** The last look at the table. */
  method Report(system: System, targets: Snapshot) returns (outcome: Outcome)
    modifies system`taken
    ensures system.taken == old(system.taken) + 1 && !outcome.PermissionDenied?
    ensures Tells(outcome, targets, system.readings(old(system.taken)))
  {
    var now := Survivors(system, targets);
    outcome := Final(now);
    FinalTells(outcome, targets, system.readings(old(system.taken)));
  }

  /** Kills what was left, if anything was, and looks once more. */
  method Finish(system: System, targets: Snapshot, order: seq<nat>, left: set<nat>, last: nat)
      returns (outcome: Outcome, m: nat)
    requires Covers(targets, order)
    modifies system
    ensures system.taken > old(system.taken)
    ensures Followed(system.readings, system.replies, old(system.signals), system.signals, old(system.taken), targets, order, left, m, outcome)
    ensures !outcome.PermissionDenied? && left != {} ==> Waited(targets, system.readings, old(system.taken) + m, system.taken - 1, last)
    ensures Tells(outcome, targets, system.readings(system.taken - 1))
  {
    ghost var sent, t := system.signals, system.taken;
    m := 0;
    if left != {} {
      var denied;
      m, denied := KillRemaining(system, targets, order, last);
      if denied {
        outcome := PermissionDenied(order[m - 1]);
        KilledFollows(system.readings, system.replies, sent, system.signals, t, targets, order, left, m, true, outcome);
        return;
      }
    }
    outcome := Report(system, targets);
    if left != {} {
      KilledFollows(system.readings, system.replies, sent, system.signals, t, targets, order, left, m, false, outcome);
    } else {
      NothingFollows(system.readings, system.replies, sent, t, targets, order, outcome);
    }
  }

  /** The first `n` turns of a TERM pass whose readings start at number `t`; only a refusal cuts it short. */
  ghost predicate Termed(readings: nat -> Snapshot, replies: nat -> Reply, signals: seq<Signal>, t: nat, targets: Snapshot,
                         order: seq<nat>, n: nat, denied: bool)
    requires Covers(targets, order)
  {
    && n <= |order| && (!denied ==> n == |order|)
    && signals == Pass(readings, targets, order, Term, t, n)
    && Refusals(replies, signals, 0, denied)
    && (denied ==> n > 0 && |signals| > 0 && signals[|signals| - 1].pid == order[n - 1])
  }

  method TermAll(system: System, targets: Snapshot, order: seq<nat>, grace: nat) returns (n: nat, denied: bool, left: set<nat>)
    requires system.signals == [] && Covers(targets, order)
    modifies system
    ensures Termed(system.readings, system.replies, system.signals, old(system.taken), targets, order, n, denied)
    ensures system.taken >= old(system.taken) + n
    ensures !denied ==> system.taken > old(system.taken) + n && left == Alive(targets, system.readings(system.taken - 1))
    ensures !denied ==> Waited(targets, system.readings, old(system.taken) + n, system.taken - 1, grace)
  {
    left := {};
    n, denied := Send(system, targets, order, Term);
    if !denied {
      Await(system, targets, grace);
      left := Survivors(system, targets);
    }
  }

  /** The first `n` turns of a KILL pass after the signals `sent`; only a refusal cuts it short. */
  ghost predicate Killed(readings: nat -> Snapshot, replies: nat -> Reply, sent: seq<Signal>, signals: seq<Signal>, t: nat,
                         targets: Snapshot, order: seq<nat>, n: nat, denied: bool)
    requires Covers(targets, order)
  {
    && n <= |order| && (!denied ==> n == |order|)
    && signals == sent + Pass(readings, targets, order, Kill, t, n)
    && Refusals(replies, signals, |sent|, denied)
    && (denied ==> n > 0 && |signals| > |sent| && signals[|signals| - 1].pid == order[n - 1])
  }

  method KillRemaining(system: System, targets: Snapshot, order: seq<nat>, last: nat) returns (n: nat, denied: bool)
    requires Covers(targets, order)
    modifies system
    ensures Killed(system.readings, system.replies, old(system.signals), system.signals, old(system.taken), targets, order, n, denied)
    ensures system.taken >= old(system.taken) + n
    ensures !denied ==> Waited(targets, system.readings, old(system.taken) + n, system.taken, last)
  {
    n, denied := Send(system, targets, order, Kill);
    if !denied {
      Await(system, targets, last);
    }
  }

  lemma KilledFollows(readings: nat -> Snapshot, replies: nat -> Reply, sent: seq<Signal>, signals: seq<Signal>, t: nat,
                      targets: Snapshot, order: seq<nat>, left: set<nat>, n: nat, denied: bool, outcome: Outcome)
    requires Covers(targets, order)
    requires Killed(readings, replies, sent, signals, t, targets, order, n, denied) && left != {}
    requires if denied then outcome == PermissionDenied(order[n - 1]) else !outcome.PermissionDenied?
    ensures Followed(readings, replies, sent, signals, t, targets, order, left, n, outcome)
  {
  }

  lemma NothingFollows(readings: nat -> Snapshot, replies: nat -> Reply, sent: seq<Signal>, t: nat, targets: Snapshot,
                       order: seq<nat>, outcome: Outcome)
    requires Covers(targets, order) && !outcome.PermissionDenied?
    ensures Followed(readings, replies, sent, sent, t, targets, order, {}, 0, outcome)
  {
  }

  /** `terminate`, over every sequence of table readings and replies. */
  method Terminate(system: System, roots: set<nat>, captured: Snapshot, excluded: set<nat>, grace: nat, last: nat)
      returns (outcome: Outcome, ghost trace: Trace)
    requires system.signals == []
    modifies system
    ensures system.taken > old(system.taken)
    ensures var targets := Targets(roots, captured, system.readings(old(system.taken)), excluded);
            && Explains(system.readings, system.replies, system.signals, old(system.taken) + 1, targets, trace, outcome)
            && Patient(system.readings, old(system.taken) + 1, system.taken, targets, trace, outcome, grace, last)
            && Tells(outcome, targets, system.readings(system.taken - 1))
  {
    var current := system.Read();
    var targets := ChooseTargets(roots, captured, current, excluded);
    var order := SortTargets(targets);
    outcome, trace := Stop(system, targets, order, grace, last);
  }

  // ---- What the script of a call guarantees ---------------------------------------------------

  /** Signal `g` follows from turn `i` of its pass. */
  lemma {:induction false} PassMember(readings: nat -> Snapshot, targets: Snapshot, order: seq<nat>, kind: Kind, t: nat, n: nat, i: nat)
    requires n <= |order| && Covers(targets, order)
    requires i < |Pass(readings, targets, order, kind, t, n)|
    ensures var g := Pass(readings, targets, order, kind, t, n)[i];
            && g.kind == kind && t <= g.after < t + n && order[g.after - t] == g.pid
            && SameProcess(targets[g.pid], readings(g.after), g.pid)
    decreases n
  {
    if i < |Pass(readings, targets, order, kind, t, n - 1)| {
      PassMember(readings, targets, order, kind, t, n - 1, i);
    }
  }

  /** Later signals of a pass follow later readings. */
  lemma {:induction false} PassIncreasing(readings: nat -> Snapshot, targets: Snapshot, order: seq<nat>, kind: Kind, t: nat, n: nat, i: nat, j: nat)
    requires n <= |order| && Covers(targets, order)
    requires i < j < |Pass(readings, targets, order, kind, t, n)|
    ensures var log := Pass(readings, targets, order, kind, t, n); log[i].after < log[j].after
    decreases n
  {
    PassMember(readings, targets, order, kind, t, n, j);
    if j < |Pass(readings, targets, order, kind, t, n - 1)| {
      PassIncreasing(readings, targets, order, kind, t, n - 1, i, j);
    } else {
      PassMember(readings, targets, order, kind, t, n - 1, i);
    }
  }

  lemma StillIn(before: seq<Signal>, all: seq<Signal>, g: Signal)
    requires before <= all && g in before
    ensures g in all
  {
  }

  /** A pass reaches every target that its own reading shows alive. */
  lemma {:induction false} PassReaches(readings: nat -> Snapshot, targets: Snapshot, order: seq<nat>, kind: Kind, t: nat, n: nat, i: nat)
    requires i < n <= |order| && Covers(targets, order)
    requires SameProcess(targets[order[i]], readings(t + i), order[i])
    ensures Signal(order[i], kind, t + i) in Pass(readings, targets, order, kind, t, n)
    decreases n
  {
    var before, all := Pass(readings, targets, order, kind, t, n - 1), Pass(readings, targets, order, kind, t, n);
    PassNext(readings, targets, order, kind, t, n - 1);
    if i < n - 1 {
      PassReaches(readings, targets, order, kind, t, n - 1, i);
      StillIn(before, all, Signal(order[i], kind, t + i));
    } else {
      assert all[|before|] == Signal(order[i], kind, t + i);
    }
  }

  lemma ScriptMember(readings: nat -> Snapshot, targets: Snapshot, order: seq<nat>, t: nat, n: nat, k: nat, m: nat, i: nat)
    requires n <= |order| && m <= |order| && Covers(targets, order)
    requires i < |Script(readings, targets, order, t, n, k, m)| && t + n <= k + 1
    ensures var g := Script(readings, targets, order, t, n, k, m)[i];
            && g.pid in targets && g.after >= t && SameProcess(targets[g.pid], readings(g.after), g.pid)
            && var from := if g.kind == Term then t else k + 1;
            && from <= g.after < from + |order| && order[g.after - from] == g.pid
  {
    var first := |Pass(readings, targets, order, Term, t, n)|;
    if i < first {
      PassMember(readings, targets, order, Term, t, n, i);
    } else {
      PassMember(readings, targets, order, Kill, k + 1, m, i - first);
    }
  }

  lemma ScriptIncreasing(readings: nat -> Snapshot, targets: Snapshot, order: seq<nat>, t: nat, n: nat, k: nat, m: nat, i: nat, j: nat)
    requires n <= |order| && m <= |order| && Covers(targets, order)
    requires i < j < |Script(readings, targets, order, t, n, k, m)| && t + n <= k + 1
    ensures var s := Script(readings, targets, order, t, n, k, m);
            s[i].after < s[j].after && (s[i].kind == Kill ==> s[j].kind == Kill)
  {
    var first := |Pass(readings, targets, order, Term, t, n)|;
    if j < first {
      PassMember(readings, targets, order, Term, t, n, i);
      PassIncreasing(readings, targets, order, Term, t, n, i, j);
    } else if first <= i {
      PassMember(readings, targets, order, Kill, k + 1, m, j - first);
      PassIncreasing(readings, targets, order, Kill, k + 1, m, i - first, j - first);
    } else {
      PassMember(readings, targets, order, Term, t, n, i);
      PassMember(readings, targets, order, Kill, k + 1, m, j - first);
    }
  }

  /** Every signal of a call: to a target, never excluded, not pid 1 (nor pid 0, on a table that does
      not put pid 0 below anything), and born when the reading just before it says. */
  lemma SignalsSafe(readings: nat -> Snapshot, replies: nat -> Reply, signals: seq<Signal>,
                    roots: set<nat>, captured: Snapshot, excluded: set<nat>, t: nat, trace: Trace, outcome: Outcome, i: nat)
    requires 1 in excluded && i < |signals|
    requires Explains(readings, replies, signals, t + 1, Targets(roots, captured, readings(t), excluded), trace, outcome)
    ensures var g := signals[i];
            var now := readings(t);
            var targets := Targets(roots, captured, now, excluded);
            && g.pid in targets && g.pid !in excluded && g.pid != 1
            && ((0 in now ==> now[0].ppid <= 1) ==> g.pid > 1)
            && (g.pid in captured || g.pid in DescendantSet(now, LiveRoots(roots, captured, now), excluded))
            && g.after > t && StillThere(targets, readings(g.after), g.pid)
  {
    var targets := Targets(roots, captured, readings(t), excluded);
    ScriptMember(readings, targets, trace.order, t + 1, trace.n, trace.k, trace.m, i);
    TargetsSafe(roots, captured, readings(t), excluded, signals[i].pid);
  }

  /** Two signals of one kind keep the target order, so no pid gets the same signal twice, and with
      `ParentFirstIff` a parent gets it before its child. No TERM follows a KILL. */
  lemma SignalsOrdered(readings: nat -> Snapshot, replies: nat -> Reply, signals: seq<Signal>,
                       targets: Snapshot, t: nat, trace: Trace, outcome: Outcome, i: nat, j: nat)
    requires Explains(readings, replies, signals, t, targets, trace, outcome) && i < j < |signals|
    ensures signals[i].kind == signals[j].kind ==> Before(targets, signals[i].pid, signals[j].pid)
    ensures signals[i].kind == Kill ==> signals[j].kind == Kill
  {
    var order := trace.order;
    ScriptMember(readings, targets, order, t, trace.n, trace.k, trace.m, i);
    ScriptMember(readings, targets, order, t, trace.n, trace.k, trace.m, j);
    ScriptIncreasing(readings, targets, order, t, trace.n, trace.k, trace.m, i, j);
  }

  /** A call that was not refused a signal has sent TERM to every target the reading of its turn
      showed, and KILL likewise if a target was left. */
  lemma EveryTargetSignalled(readings: nat -> Snapshot, replies: nat -> Reply, signals: seq<Signal>,
                             targets: Snapshot, t: nat, trace: Trace, outcome: Outcome, pid: nat) returns (turn: nat)
    requires Explains(readings, replies, signals, t, targets, trace, outcome) && !outcome.PermissionDenied? && pid in targets
    ensures turn < |trace.order| && trace.order[turn] == pid
    ensures StillThere(targets, readings(t + turn), pid) ==> Signal(pid, Term, t + turn) in signals
    ensures StillThere(targets, readings(trace.k + 1 + turn), pid) && !NoneLeft(targets, readings(trace.k)) ==>
              Signal(pid, Kill, trace.k + 1 + turn) in signals
  {
    AliveIs(targets, readings(trace.k));
    turn := TurnOf(targets, trace.order, pid);
    TermReaches(readings, targets, trace, t, turn);
    KillReaches(readings, targets, trace, t, turn);
  }

  lemma TurnOf(targets: Snapshot, order: seq<nat>, pid: nat) returns (turn: nat)
    requires IsOrder(targets, order) && pid in targets
    ensures turn < |order| && order[turn] == pid
  {
    assert pid in order;
    turn :| turn < |order| && order[turn] == pid;
  }

  lemma TermReaches(readings: nat -> Snapshot, targets: Snapshot, trace: Trace, t: nat, turn: nat)
    requires turn < trace.n == |trace.order| && trace.m <= |trace.order| && Covers(targets, trace.order)
    ensures var pid := trace.order[turn];
            SameProcess(targets[pid], readings(t + turn), pid) ==>
              Signal(pid, Term, t + turn) in Script(readings, targets, trace.order, t, trace.n, trace.k, trace.m)
  {
    var pid := trace.order[turn];
    if SameProcess(targets[pid], readings(t + turn), pid) {
      PassReaches(readings, targets, trace.order, Term, t, trace.n, turn);
    }
  }

  lemma KillReaches(readings: nat -> Snapshot, targets: Snapshot, trace: Trace, t: nat, turn: nat)
    requires turn < |trace.order| && trace.n <= |trace.order| && Covers(targets, trace.order)
    requires trace.m == 0 || trace.m == |trace.order|
    ensures var pid := trace.order[turn];
            trace.m > 0 && SameProcess(targets[pid], readings(trace.k + 1 + turn), pid) ==>
              Signal(pid, Kill, trace.k + 1 + turn) in Script(readings, targets, trace.order, t, trace.n, trace.k, trace.m)
  {
    var pid := trace.order[turn];
    if trace.m > 0 && SameProcess(targets[pid], readings(trace.k + 1 + turn), pid) {
      PassReaches(readings, targets, trace.order, Kill, trace.k + 1, trace.m, turn);
    }
  }

  /** A table that lists pid 0 below the process to be stopped. */
  function ZeroBelow(): Snapshot { map[0 := Process(0, 5, "boot"), 5 := Process(5, 1, "start")] }

  function Still(table: Snapshot): nat -> Snapshot { (k: nat) => table }

  /** While the table stays so, every call that is not refused a signal sends TERM to pid 0. */
  lemma PidZeroSignalled(replies: nat -> Reply, signals: seq<Signal>, t: nat, trace: Trace, outcome: Outcome)
    requires var targets := Targets({5}, map[5 := ZeroBelow()[5]], ZeroBelow(), {1});
             Explains(Still(ZeroBelow()), replies, signals, t, targets, trace, outcome)
    requires !outcome.PermissionDenied?
    ensures exists i :: 0 <= i < |signals| && signals[i].pid == 0 && signals[i].kind == Term
  {
    var table := ZeroBelow();
    var captured := map[5 := table[5]];
    var targets := Targets({5}, captured, table, {1});
    assert 5 in LiveRoots({5}, captured, table);
    UnderSelf(table, 5, {1});
    PidZeroIff({5}, captured, table, {1});
    assert targets[0] == table[0];
    var turn := EveryTargetSignalled(Still(table), replies, signals, targets, t, trace, outcome, 0);
    assert Signal(0, Term, t + turn) in signals;
  }
}
