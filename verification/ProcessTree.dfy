/** Parent tables, ancestor and descendant closures and root pruning of
    scripts/local_stack_processes.py. */
module ProcessTree {
  import opened Wrappers

  datatype Process = Process(pid: nat, ppid: nat, born: string)

  /** One reading of the process table, keyed by pid. */
  type Snapshot = map<nat, Process>

  // ---- Walking up ---------------------------------------------------------------------------

  /** The pid reached after `n` steps from child to parent. The walk ends at pids 0 and 1 and at
      pids the snapshot does not know. */
  function Up(s: Snapshot, pid: nat, n: nat): Option<nat>
    decreases n
  {
    if n == 0 then Some(pid)
    else if pid > 1 && pid in s then Up(s, s[pid].ppid, n - 1)
    else None
  }

  ghost predicate Above(s: Snapshot, pid: nat, q: nat) {
    exists n: nat :: Up(s, pid, n) == Some(q)
  }

  /** A pid that comes back to itself. */
  ghost predicate OnCycle(s: Snapshot, pid: nat) {
    exists n: nat :: n > 0 && Up(s, pid, n) == Some(pid)
  }

  lemma {:induction false} UpCompose(s: Snapshot, pid: nat, m: nat, n: nat)
    requires Up(s, pid, m).Some?
    ensures Up(s, pid, m + n) == Up(s, Up(s, pid, m).value, n)
    decreases m
  {
    if m > 0 {
      UpCompose(s, s[pid].ppid, m - 1, n);
    }
  }

  lemma AboveTransitive(s: Snapshot, a: nat, b: nat, c: nat)
    requires Above(s, a, b) && Above(s, b, c)
    ensures Above(s, a, c)
  {
    var m: nat :| Up(s, a, m) == Some(b);
    var n: nat :| Up(s, b, n) == Some(c);
    UpCompose(s, a, m, n);
  }

  lemma ParentAbove(s: Snapshot, pid: nat)
    requires pid > 1 && pid in s
    ensures Above(s, pid, s[pid].ppid) && Above(s, pid, pid)
  {
    assert Up(s, pid, 0) == Some(pid);
    assert Up(s, s[pid].ppid, 0) == Some(s[pid].ppid);
    assert Up(s, pid, 1) == Up(s, s[pid].ppid, 0);
  }

  /** Everything above a pid on a cycle is on that cycle. */
  lemma CycleClosed(s: Snapshot, r: nat, t: nat)
    requires OnCycle(s, r) && Above(s, r, t)
    ensures OnCycle(s, t) && Above(s, t, r)
  {
    var n: nat :| n > 0 && Up(s, r, n) == Some(r);
    var m: nat :| Up(s, r, m) == Some(t);
    UpCompose(s, r, n, m);
    UpCompose(s, r, m, n);
    assert Up(s, t, n) == Some(t);
    CycleReturns(s, r, n, m);
  }

  /** However far up, the cycle comes back to its pid later. */
  lemma {:induction false} CycleTimes(s: Snapshot, r: nat, n: nat, m: nat) returns (far: nat)
    requires n > 0 && Up(s, r, n) == Some(r)
    ensures m <= far && Up(s, r, far) == Some(r)
  {
    far := 0;
    if m > 0 {
      var near := CycleTimes(s, r, n, m - 1);
      UpCompose(s, r, near, n);
      far := near + n;
    }
  }

  lemma CycleReturns(s: Snapshot, r: nat, n: nat, m: nat)
    requires n > 0 && Up(s, r, n) == Some(r) && Up(s, r, m).Some?
    ensures Above(s, Up(s, r, m).value, r)
  {
    var far := CycleTimes(s, r, n, m);
    UpCompose(s, r, m, far - m);
  }

  /** The pids `ancestors` can return. */
  function Pids(s: Snapshot, pid: nat): set<nat> {
    s.Keys + {pid, 1} + (set k | k in s :: s[k].ppid)
  }

  /** Pid 1 and every pid above 1 on the walk up from `pid`, `pid` itself included. */
  ghost function AncestorSet(s: Snapshot, pid: nat): set<nat> {
    set q | q in Pids(s, pid) && (q == 1 || (q > 1 && Above(s, pid, q)))
  }

  lemma {:induction false} UpInPids(s: Snapshot, pid: nat, n: nat)
    requires Up(s, pid, n).Some?
    ensures Up(s, pid, n).value in Pids(s, pid)
    decreases n
  {
    if n > 0 {
      UpInPids(s, s[pid].ppid, n - 1);
    }
  }

  lemma AncestorSetMember(s: Snapshot, pid: nat, q: nat)
    ensures q in AncestorSet(s, pid) <==> q == 1 || (q > 1 && Above(s, pid, q))
  {
    if Above(s, pid, q) {
      var n: nat :| Up(s, pid, n) == Some(q);
      UpInPids(s, pid, n);
    }
  }

  /** A set that contains the parents of its members contains every walk that starts in it. */
  lemma {:induction false} ClosedWalk(s: Snapshot, e: set<nat>, pid: nat, n: nat)
    requires pid <= 1 || pid in e
    requires forall x :: x in e && x > 1 && x in s ==> s[x].ppid in e || s[x].ppid <= 1
    requires Up(s, pid, n).Some?
    ensures Up(s, pid, n).value <= 1 || Up(s, pid, n).value in e
    decreases n
  {
    if n > 0 {
      ClosedWalk(s, e, s[pid].ppid, n - 1);
    }
  }

  /** `ancestors`. */
  method Ancestors(s: Snapshot, pid: nat) returns (excluded: set<nat>)
    ensures excluded == AncestorSet(s, pid)
  {
    excluded := {1};
    var p := pid;
    ghost var steps: nat := 0;
    while p > 1 && p !in excluded
      invariant 1 in excluded && 0 !in excluded
      invariant Up(s, pid, steps) == Some(p)
      invariant forall q :: q in excluded && q != 1 ==> Above(s, pid, q)
      invariant pid <= 1 || pid in excluded || p == pid
      invariant forall x :: x in excluded && x > 1 && x in s ==>
                  s[x].ppid in excluded || s[x].ppid <= 1 || s[x].ppid == p
      decreases s.Keys - excluded
    {
      excluded := excluded + {p};
      if p !in s {
        break;
      }
      UpCompose(s, pid, steps, 1);
      assert Up(s, p, 1) == Up(s, s[p].ppid, 0);
      p := s[p].ppid;
      steps := steps + 1;
    }
    forall q ensures q in excluded <==> q in AncestorSet(s, pid) {
      AncestorSetMember(s, pid, q);
      if q > 1 && Above(s, pid, q) {
        var n: nat :| Up(s, pid, n) == Some(q);
        ClosedWalk(s, excluded, pid, n);
      }
    }
  }

  // ---- Walking down -------------------------------------------------------------------------

  /** `d` climbs to `r` in `n` steps without touching an excluded pid before `r`. */
  predicate Climbs(s: Snapshot, d: nat, r: nat, n: nat, excluded: set<nat>)
    decreases n
  {
    if n == 0 then d == r else d in s && d !in excluded && Climbs(s, s[d].ppid, r, n - 1, excluded)
  }

  ghost predicate Under(s: Snapshot, d: nat, r: nat, excluded: set<nat>) {
    exists n: nat :: Climbs(s, d, r, n, excluded)
  }

  function Start(roots: set<nat>, excluded: set<nat>): set<nat> { roots - excluded - {0, 1} }

  ghost predicate UnderAny(s: Snapshot, d: nat, roots: set<nat>, excluded: set<nat>) {
    exists r :: r in roots && Under(s, d, r, excluded)
  }

  /** The usable roots and everything below them, excluded pids cutting the descent. */
  ghost function DescendantSet(s: Snapshot, roots: set<nat>, excluded: set<nat>): set<nat> {
    set d | d in roots + s.Keys && UnderAny(s, d, Start(roots, excluded), excluded)
  }

  function Children(s: Snapshot, selected: set<nat>, excluded: set<nat>): set<nat> {
    set p | p in s && s[p].ppid in selected && p !in excluded
  }

  lemma UnderSelf(s: Snapshot, d: nat, excluded: set<nat>)
    ensures Under(s, d, d, excluded)
  {
    assert Climbs(s, d, d, 0, excluded);
  }

  lemma UnderParent(s: Snapshot, d: nat, r: nat, excluded: set<nat>)
    requires d in s && d !in excluded && Under(s, s[d].ppid, r, excluded)
    ensures Under(s, d, r, excluded)
  {
    var n: nat :| Climbs(s, s[d].ppid, r, n, excluded);
    assert Climbs(s, d, r, n + 1, excluded);
  }

  lemma {:induction false} ClimbsCompose(s: Snapshot, a: nat, b: nat, c: nat, m: nat, n: nat, excluded: set<nat>)
    requires Climbs(s, a, b, m, excluded) && Climbs(s, b, c, n, excluded)
    ensures Climbs(s, a, c, m + n, excluded)
    decreases m
  {
    if m > 0 {
      ClimbsCompose(s, s[a].ppid, b, c, m - 1, n, excluded);
    }
  }

  lemma UnderTransitive(s: Snapshot, a: nat, b: nat, c: nat, excluded: set<nat>)
    requires Under(s, a, b, excluded) && Under(s, b, c, excluded)
    ensures Under(s, a, c, excluded)
  {
    var m: nat :| Climbs(s, a, b, m, excluded);
    var n: nat :| Climbs(s, b, c, n, excluded);
    ClimbsCompose(s, a, b, c, m, n, excluded);
  }

  lemma {:induction false} ClosedClimb(s: Snapshot, selected: set<nat>, d: nat, r: nat, n: nat, excluded: set<nat>)
    requires r in selected && Climbs(s, d, r, n, excluded) && Children(s, selected, excluded) <= selected
    ensures d in selected
    decreases n
  {
    if n > 0 {
      ClosedClimb(s, selected, s[d].ppid, r, n - 1, excluded);
      assert d in Children(s, selected, excluded);
    }
  }

  /** `descendants`: grows the selection until no child is missing. */
  method Descendants(s: Snapshot, roots: set<nat>, excluded: set<nat>) returns (selected: set<nat>)
    ensures selected == DescendantSet(s, roots, excluded)
  {
    selected := Start(roots, excluded);
    forall d | d in selected ensures UnderAny(s, d, Start(roots, excluded), excluded) {
      UnderSelf(s, d, excluded);
    }
    while true
      invariant Start(roots, excluded) <= selected <= roots + s.Keys
      invariant forall d :: d in selected ==> UnderAny(s, d, Start(roots, excluded), excluded)
      decreases roots + s.Keys - selected
    {
      var expanded := selected + Children(s, selected, excluded);
      if expanded == selected {
        break;
      }
      forall d | d in Children(s, selected, excluded) ensures UnderAny(s, d, Start(roots, excluded), excluded) {
        ChildUnder(s, d, Start(roots, excluded), excluded);
      }
      selected := expanded;
    }
    forall d | UnderAny(s, d, Start(roots, excluded), excluded) ensures d in selected {
      ClosedUnder(s, selected, d, Start(roots, excluded), excluded);
    }
  }

  lemma ChildUnder(s: Snapshot, d: nat, roots: set<nat>, excluded: set<nat>)
    requires d in s && d !in excluded && UnderAny(s, s[d].ppid, roots, excluded)
    ensures UnderAny(s, d, roots, excluded)
  {
    var r :| r in roots && Under(s, s[d].ppid, r, excluded);
    UnderParent(s, d, r, excluded);
  }

  lemma ClosedUnder(s: Snapshot, selected: set<nat>, d: nat, roots: set<nat>, excluded: set<nat>)
    requires roots <= selected && Children(s, selected, excluded) <= selected && UnderAny(s, d, roots, excluded)
    ensures d in selected
  {
    var r :| r in roots && Under(s, d, r, excluded);
    var n: nat :| Climbs(s, d, r, n, excluded);
    ClosedClimb(s, selected, d, r, n, excluded);
  }

  // ---- One root per tree --------------------------------------------------------------------

  /** The final filter of `select_roots`: drops a root that has another root above it. */
  ghost function Pruned(s: Snapshot, roots: set<nat>, excluded: set<nat>): set<nat>
    requires roots <= s.Keys
  {
    set r | r in roots && Topmost(s, r, roots, excluded)
  }

  ghost predicate Topmost(s: Snapshot, r: nat, roots: set<nat>, excluded: set<nat>)
    requires r in s
  {
    forall q :: q in roots && q in AncestorSet(s, s[r].ppid) ==> q in excluded
  }

  method PruneRoots(s: Snapshot, roots: set<nat>, excluded: set<nat>) returns (kept: set<nat>)
    requires roots <= s.Keys
    ensures kept == Pruned(s, roots, excluded)
  {
    kept := {};
    var todo := roots;
    while todo != {}
      invariant todo <= roots
      invariant kept == set r | r in roots - todo && Topmost(s, r, roots, excluded)
      decreases todo
    {
      var r :| r in todo;
      var above := Ancestors(s, s[r].ppid);
      assert Topmost(s, r, roots, excluded) <==> (above - excluded) * roots == {} by {
        assert forall q :: q in (above - excluded) * roots <==> q in roots && q in above && q !in excluded;
      }
      if (above - excluded) * roots == {} {
        kept := kept + {r};
      }
      todo := todo - {r};
    }
  }

  /** Closed under taking parents, as the walk up from the running script is. */
  predicate UpwardClosed(s: Snapshot, excluded: set<nat>) {
    1 in excluded && forall x :: x in excluded && x > 1 && x in s ==> s[x].ppid in excluded || s[x].ppid <= 1
  }

  lemma OwnAncestorsUpwardClosed(s: Snapshot, pid: nat)
    ensures UpwardClosed(s, AncestorSet(s, pid))
  {
    var e := AncestorSet(s, pid);
    AncestorSetMember(s, pid, 1);
    forall x | x in e && x > 1 && x in s ensures s[x].ppid in e || s[x].ppid <= 1 {
      AncestorSetMember(s, pid, x);
      ParentAbove(s, x);
      AboveTransitive(s, pid, x, s[x].ppid);
      AncestorSetMember(s, pid, s[x].ppid);
    }
  }

  /** A usable set of roots: known processes, none of them excluded, none of them the kernel. */
  predicate Usable(s: Snapshot, roots: set<nat>, excluded: set<nat>) {
    roots <= s.Keys && roots !! excluded && 0 !in roots && 1 in excluded
  }

  /** Above an excluded pid everything is excluded, so a climb to a pid that is not avoids them all. */
  lemma {:induction false} AboveIsUnder(s: Snapshot, d: nat, r: nat, n: nat, excluded: set<nat>)
    requires UpwardClosed(s, excluded) && Up(s, d, n) == Some(r) && r > 1 && r !in excluded
    ensures Climbs(s, d, r, n, excluded)
    decreases n
  {
    if n > 0 {
      AboveIsUnder(s, s[d].ppid, r, n - 1, excluded);
      if d in excluded {
        ClosedWalk(s, excluded, d, n);
      }
    }
  }

  lemma {:induction false} ClimbIsAbove(s: Snapshot, d: nat, r: nat, n: nat, excluded: set<nat>)
    requires Climbs(s, d, r, n, excluded) && 1 in excluded && r > 1
    requires 0 in s ==> s[0].ppid <= 1
    ensures Up(s, d, n) == Some(r)
    decreases n
  {
    if n > 0 {
      if d == 0 {
        LowClimb(s, s[0].ppid, r, n - 1, excluded);
      }
      ClimbIsAbove(s, s[d].ppid, r, n - 1, excluded);
    }
  }

  /** Nothing is above pids 0 and 1 when 0 is its own parent or a child of 1, as kernels have it. */
  lemma {:induction false} LowClimb(s: Snapshot, d: nat, r: nat, n: nat, excluded: set<nat>)
    requires d <= 1 && Climbs(s, d, r, n, excluded) && 1 in excluded
    requires 0 in s ==> s[0].ppid <= 1
    ensures r <= 1
    decreases n
  {
    if n > 0 {
      LowClimb(s, s[d].ppid, r, n - 1, excluded);
    }
  }

  /** Pruned roots form an antichain: none lies above another. */
  lemma PrunedAntichain(s: Snapshot, roots: set<nat>, excluded: set<nat>, a: nat, b: nat)
    requires Usable(s, roots, excluded)
    requires a in Pruned(s, roots, excluded) && b in Pruned(s, roots, excluded) && a != b
    ensures !Above(s, a, b)
  {
    if Above(s, a, b) {
      ProperlyAbove(s, a, b);
    }
  }

  lemma ProperlyAbove(s: Snapshot, a: nat, b: nat)
    requires a in s && Above(s, a, b) && a != b && b > 1
    ensures b in AncestorSet(s, s[a].ppid)
  {
    var n: nat :| Up(s, a, n) == Some(b);
    assert Up(s, s[a].ppid, n - 1) == Some(b);
    AncestorSetMember(s, s[a].ppid, b);
  }

  lemma AroundCycle(s: Snapshot, r: nat, a: nat)
    requires r > 1 && r in s && Above(s, s[r].ppid, a) && Above(s, a, r)
    ensures OnCycle(s, r)
  {
    var n: nat :| Up(s, s[r].ppid, n) == Some(a);
    var m: nat :| Up(s, a, m) == Some(r);
    assert Up(s, r, n + 1) == Some(a);
    UpCompose(s, r, n + 1, m);
  }

  /** Going up shrinks the ancestor set, off cycles. */
  lemma AncestorsShrink(s: Snapshot, r: nat, a: nat)
    requires r > 1 && Above(s, r, a) && !Above(s, a, r)
    ensures AncestorSet(s, a) < AncestorSet(s, r)
  {
    forall q | q in AncestorSet(s, a) ensures q in AncestorSet(s, r) {
      AncestorSetMember(s, a, q);
      AncestorSetMember(s, r, q);
      if q != 1 {
        AboveTransitive(s, r, a, q);
      }
    }
    AncestorSetMember(s, a, r);
    AncestorSetMember(s, r, r);
    assert Up(s, r, 0) == Some(r);
    assert r in AncestorSet(s, r) && r !in AncestorSet(s, a);
  }

  /** Off cycles, every root has a kept root at or above it, with no excluded pid in between. */
  lemma {:induction false} RootCovered(s: Snapshot, roots: set<nat>, excluded: set<nat>, r: nat)
    requires Usable(s, roots, excluded) && UpwardClosed(s, excluded) && r in roots
    requires forall x :: x in roots ==> !OnCycle(s, x)
    ensures exists t :: t in Pruned(s, roots, excluded) && Under(s, r, t, excluded)
    decreases AncestorSet(s, r)
  {
    if Topmost(s, r, roots, excluded) {
      UnderSelf(s, r, excluded);
    } else {
      var a :| a in roots && a in AncestorSet(s, s[r].ppid) && a !in excluded;
      AncestorSetMember(s, s[r].ppid, a);
      var n: nat :| Up(s, s[r].ppid, n) == Some(a);
      assert Up(s, r, n + 1) == Some(a);
      if Above(s, a, r) {
        AroundCycle(s, r, a);
      } else {
        AncestorsShrink(s, r, a);
        RootCovered(s, roots, excluded, a);
        var t :| t in Pruned(s, roots, excluded) && Under(s, a, t, excluded);
        AboveIsUnder(s, r, a, n + 1, excluded);
        UnderTransitive(s, r, a, t, excluded);
      }
    }
  }

  /** Every root on a cycle is dropped, and with it everything that hangs below the cycle. */
  lemma CycleLost(s: Snapshot, roots: set<nat>, excluded: set<nat>, r: nat)
    requires Usable(s, roots, excluded) && r in roots && OnCycle(s, r)
    requires 0 in s ==> s[0].ppid <= 1
    ensures r !in DescendantSet(s, Pruned(s, roots, excluded), excluded)
  {
    var kept := Pruned(s, roots, excluded);
    if r in DescendantSet(s, kept, excluded) {
      var t :| t in Start(kept, excluded) && Under(s, r, t, excluded);
      var n: nat :| Climbs(s, r, t, n, excluded);
      ClimbIsAbove(s, r, t, n, excluded);
      CycleClosed(s, r, t);
      CycleDropped(s, roots, excluded, t);
    }
  }

  lemma CycleDropped(s: Snapshot, roots: set<nat>, excluded: set<nat>, t: nat)
    requires Usable(s, roots, excluded) && t in roots && OnCycle(s, t)
    ensures t !in Pruned(s, roots, excluded)
  {
    var k: nat :| k > 0 && Up(s, t, k) == Some(t);
    assert Up(s, s[t].ppid, k - 1) == Some(t);
    AncestorSetMember(s, s[t].ppid, t);
  }

  /** Keeping one root per tree loses no process exactly when no root is its own ancestor. */
  lemma PruningLosesNothingIff(s: Snapshot, roots: set<nat>, excluded: set<nat>)
    requires Usable(s, roots, excluded) && UpwardClosed(s, excluded)
    requires 0 in s ==> s[0].ppid <= 1
    ensures DescendantSet(s, Pruned(s, roots, excluded), excluded) == DescendantSet(s, roots, excluded)
       <==> forall r :: r in roots ==> !OnCycle(s, r)
  {
    var kept := Pruned(s, roots, excluded);
    assert Start(roots, excluded) == roots && Start(kept, excluded) == kept;
    if forall r :: r in roots ==> !OnCycle(s, r) {
      forall d ensures d in DescendantSet(s, kept, excluded) <==> d in DescendantSet(s, roots, excluded) {
        if d in DescendantSet(s, roots, excluded) {
          var r :| r in roots && Under(s, d, r, excluded);
          RootCovered(s, roots, excluded, r);
          var t :| t in kept && Under(s, r, t, excluded);
          UnderTransitive(s, d, r, t, excluded);
        }
      }
    } else {
      var r :| r in roots && OnCycle(s, r);
      UnderSelf(s, r, excluded);
      CycleLost(s, roots, excluded, r);
    }
  }

  /** The exclusion must be closed in the snapshot at hand. With one taken from an older table, a root
      can be dropped in favour of a root it is cut off from: here 2 under 3 under 4, with 3 excluded. */
  lemma StaleExclusionLoses()
    ensures var s := map[2 := Process(2, 3, ""), 3 := Process(3, 4, ""), 4 := Process(4, 1, "")];
            && Usable(s, {2, 4}, {1, 3}) && !UpwardClosed(s, {1, 3})
            && 2 in DescendantSet(s, {2, 4}, {1, 3})
            && 2 !in DescendantSet(s, Pruned(s, {2, 4}, {1, 3}), {1, 3})
  {
    var s := map[2 := Process(2, 3, ""), 3 := Process(3, 4, ""), 4 := Process(4, 1, "")];
    UnderSelf(s, 2, {1, 3});
    assert 2 in Start({2, 4}, {1, 3});
    assert Up(s, 4, 0) == Some(4);
    assert Up(s, 3, 1) == Up(s, 4, 0);
    AncestorSetMember(s, 3, 4);
    assert !Topmost(s, 2, {2, 4}, {1, 3});
    forall n: nat ensures !Climbs(s, 2, 4, n, {1, 3}) {
      assert n > 0 ==> (Climbs(s, 2, 4, n, {1, 3}) <==> Climbs(s, 3, 4, n - 1, {1, 3}));
      assert n > 1 ==> !Climbs(s, 3, 4, n - 1, {1, 3});
    }
  }
}
