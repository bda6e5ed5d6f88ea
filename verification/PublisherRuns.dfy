/** Every interleaving of publishing threads, the event loop and subscribers. */
module PublisherRuns {
  import opened Publisher
  import opened Wrappers

  /** A subscriber: how many payloads were published when it came, what is left of its replay, its queue,
      what it has received from each, everything ever put in its queue, and how much of that was dropped. */
  datatype Sub = Sub(at: nat, replay: seq<nat>, queue: seq<nat>, replayed: seq<nat>, taken: seq<nat>,
                     enqueued: seq<nat>, dropped: nat)

  datatype Call = Call(sub: nat, msg: nat)

  /** A thread between the lock of `publish` and its return: the payload, and who is still to be told. */
  datatype Sending = Sending(msg: nat, to: set<nat>)

  datatype State = State(published: nat, replay: seq<nat>, listening: set<nat>, subs: map<nat, Sub>,
                         sending: map<nat, Sending>, pending: seq<Call>, lost: set<Call>)

  function Initial(): State { State(0, [], {}, map[], map[], [], {}) }

  datatype Step =
    | Publish(thread: nat)
    | Schedule(thread: nat, sub: nat)
    | GiveUp(thread: nat)
    | RunCall
    | Subscribe(sub: nat)
    | Replay(sub: nat)
    | Take(sub: nat)
    | Leave(sub: nat)

  predicate Idle(s: State, thread: nat) { thread !in s.sending || s.sending[thread].to == {} }

  predicate Enabled(s: State, step: Step) {
    match step
    case Publish(t) => Idle(s, t)
    case Schedule(t, q) => t in s.sending && q in s.sending[t].to
    case GiveUp(t) => t in s.sending
    case RunCall => s.pending != [] && s.pending[0].sub in s.subs
    case Subscribe(q) => q !in s.subs
    case Replay(q) => q in s.subs && s.subs[q].replay != []
    case Take(q) => q in s.subs && s.subs[q].replay == [] && s.subs[q].queue != []
    case Leave(q) => q in s.listening
  }

  function Put(sub: Sub, msg: nat): Sub {
    sub.(queue := Enqueue(sub.queue, msg), enqueued := sub.enqueued + [msg],
         dropped := sub.dropped + if |sub.queue| >= QUEUE then 1 else 0)
  }

  function Calls(to: set<nat>, msg: nat): set<Call> { set q | q in to :: Call(q, msg) }

  /** `GiveUp` is a loop that is unbound or closed: the rest of the fan-out is skipped. */
  function Do(size: nat, s: State, step: Step): State
    requires Enabled(s, step)
  {
    match step
    case Publish(t) =>
      s.(published := s.published + 1, replay := Append(s.replay, s.published, size),
         sending := s.sending[t := Sending(s.published, s.listening)])
    case Schedule(t, q) =>
      s.(sending := s.sending[t := s.sending[t].(to := s.sending[t].to - {q})],
         pending := s.pending + [Call(q, s.sending[t].msg)])
    case GiveUp(t) =>
      s.(sending := s.sending[t := s.sending[t].(to := {})], lost := s.lost + Calls(s.sending[t].to, s.sending[t].msg))
    case RunCall =>
      var c := s.pending[0];
      s.(pending := s.pending[1..], subs := s.subs[c.sub := Put(s.subs[c.sub], c.msg)])
    case Subscribe(q) =>
      s.(listening := s.listening + {q}, subs := s.subs[q := Sub(s.published, s.replay, [], [], [], [], 0)])
    case Replay(q) =>
      var sub := s.subs[q];
      s.(subs := s.subs[q := sub.(replay := sub.replay[1..], replayed := sub.replayed + [sub.replay[0]])])
    case Take(q) =>
      var sub := s.subs[q];
      s.(subs := s.subs[q := sub.(queue := sub.queue[1..], taken := sub.taken + [sub.queue[0]])])
    case Leave(q) => s.(listening := s.listening - {q})
  }

  /** The state after a whole run; `None` if some step of it was not possible. */
  function After(size: nat, steps: seq<Step>): Option<State> {
    if steps == [] then Some(Initial())
    else
      var before := After(size, steps[..|steps| - 1]);
      if before.Some? && Enabled(before.value, steps[|steps| - 1]) then Some(Do(size, before.value, steps[|steps| - 1]))
      else None
  }

  // ---- Sequences ----------------------------------------------------------------------------

  predicate NoDup(s: seq<nat>) { forall i, j :: 0 <= i < j < |s| ==> s[i] != s[j] }

  predicate Increasing(s: seq<nat>) { forall i, j :: 0 <= i < j < |s| ==> s[i] < s[j] }

  predicate Subseq(a: seq<nat>, b: seq<nat>)
    decreases |b|
  {
    if a == [] then true
    else if b == [] then false
    else
      || (a[|a| - 1] == b[|b| - 1] && Subseq(a[..|a| - 1], b[..|b| - 1]))
      || Subseq(a, b[..|b| - 1])
  }

  lemma SubseqGrow(a: seq<nat>, b: seq<nat>, x: nat)
    requires Subseq(a, b)
    ensures Subseq(a, b + [x]) && Subseq(a + [x], b + [x])
  {
    assert (b + [x])[..|b|] == b && (a + [x])[..|a|] == a;
  }

  /** A subsequence takes over what holds between any two elements. */
  lemma {:induction false} SubseqMembers(a: seq<nat>, b: seq<nat>)
    requires Subseq(a, b)
    ensures |a| <= |b| && (forall x :: x in a ==> x in b)
    ensures (NoDup(b) ==> NoDup(a)) && (Increasing(b) ==> Increasing(a))
    decreases |b|
  {
    if a != [] {
      var a', b' := a[..|a| - 1], b[..|b| - 1];
      assert a == a' + [a[|a| - 1]] && b == b' + [b[|b| - 1]];
      if a[|a| - 1] == b[|b| - 1] && Subseq(a', b') {
        SubseqMembers(a', b');
        LastApart(a', b', b[|b| - 1]);
      } else {
        SubseqMembers(a, b');
      }
    }
  }

  lemma LastApart(a: seq<nat>, b: seq<nat>, x: nat)
    requires forall y :: y in a ==> y in b
    ensures NoDup(b + [x]) && NoDup(a) ==> NoDup(a + [x])
    ensures Increasing(b + [x]) && Increasing(a) ==> Increasing(a + [x])
  {
    forall i | 0 <= i < |a|
      ensures NoDup(b + [x]) ==> a[i] != x
      ensures Increasing(b + [x]) ==> a[i] < x
    {
      assert a[i] in b;
      var j :| 0 <= j < |b| && b[j] == a[i];
      assert (b + [x])[j] == a[i] && (b + [x])[|b|] == x;
    }
  }

  // ---- The replay buffer --------------------------------------------------------------------

  /** The last `size` of the numbers below `n`. */
  function Recent(n: nat, size: nat): seq<nat> {
    var k := if n <= size then n else size;
    seq(k, i requires 0 <= i < k => n - k + i)
  }

  lemma RecentIs(at: nat, size: nat, n: nat)
    ensures n in Recent(at, size) <==> n < at && at - n <= size
  {
    var k := if at <= size then at else size;
    if n < at && at - n <= size {
      assert Recent(at, size)[n - (at - k)] == n;
    }
  }

  lemma AppendRecent(n: nat, size: nat)
    ensures Append(Recent(n, size), n, size) == Recent(n + 1, size)
  {
  }

  // ---- One subscriber -----------------------------------------------------------------------

  /** What a subscriber has is what it should have. */
  ghost predicate SubInv(size: nat, b: Sub, published: nat) {
    b.at <= published && ReplayOk(size, b) && QueueOk(b.enqueued, b.queue, b.taken, b.dropped) && SentOk(b.at, b.enqueued, published)
  }

  /** The replay is the buffer of the moment it came, and is over before the queue is read. */
  predicate ReplayOk(size: nat, b: Sub) {
    b.replayed + b.replay == Recent(b.at, size) && (b.taken != [] ==> b.replay == [])
  }

  /** The queue is the end of all that was sent, at most four; what was taken is a subsequence of the rest. */
  predicate QueueOk(enqueued: seq<nat>, queue: seq<nat>, taken: seq<nat>, dropped: nat) {
    && |queue| <= 4 && |queue| <= |enqueued|
    && queue == enqueued[|enqueued| - |queue|..]
    && Subseq(taken, enqueued[..|enqueued| - |queue|])
    && |enqueued| == |taken| + dropped + |queue|
  }

  /** Only what was published since is sent, and nothing twice. */
  predicate SentOk(at: nat, enqueued: seq<nat>, published: nat) {
    NoDup(enqueued) && forall i :: 0 <= i < |enqueued| ==> at <= enqueued[i] < published
  }

  lemma QueueGrows(enqueued: seq<nat>, queue: seq<nat>, taken: seq<nat>, dropped: nat, msg: nat)
    requires QueueOk(enqueued, queue, taken, dropped) && |queue| < QUEUE
    ensures QueueOk(enqueued + [msg], queue + [msg], taken, dropped)
  {
    var k := |enqueued| - |queue|;
    assert (enqueued + [msg])[..k] == enqueued[..k];
    assert (enqueued + [msg])[k..] == enqueued[k..] + [msg];
  }

  lemma QueueDrops(enqueued: seq<nat>, queue: seq<nat>, taken: seq<nat>, dropped: nat)
    requires QueueOk(enqueued, queue, taken, dropped) && queue != []
    ensures QueueOk(enqueued, queue[1..], taken, dropped + 1)
    ensures QueueOk(enqueued, queue[1..], taken + [queue[0]], dropped)
  {
    var k := |enqueued| - |queue|;
    assert enqueued[..k + 1] == enqueued[..k] + [enqueued[k]];
    SubseqGrow(taken, enqueued[..k], enqueued[k]);
    assert enqueued[k + 1..] == enqueued[k..][1..];
  }

  lemma SentGrows(at: nat, enqueued: seq<nat>, published: nat, msg: nat)
    requires SentOk(at, enqueued, published) && at <= msg < published && msg !in enqueued
    ensures SentOk(at, enqueued + [msg], published)
  {
  }

  lemma PutQueue(b: Sub, msg: nat)
    requires QueueOk(b.enqueued, b.queue, b.taken, b.dropped)
    ensures var now := Put(b, msg); QueueOk(now.enqueued, now.queue, now.taken, now.dropped)
  {
    if |b.queue| < QUEUE {
      QueueGrows(b.enqueued, b.queue, b.taken, b.dropped, msg);
    } else {
      QueueDrops(b.enqueued, b.queue, b.taken, b.dropped);
      QueueGrows(b.enqueued, b.queue[1..], b.taken, b.dropped + 1, msg);
    }
  }

  lemma PutKeeps(size: nat, b: Sub, published: nat, msg: nat)
    requires SubInv(size, b, published) && b.at <= msg < published && msg !in b.enqueued
    ensures SubInv(size, Put(b, msg), published)
  {
    PutQueue(b, msg);
    SentGrows(b.at, b.enqueued, published, msg);
  }

  lemma TakeKeeps(size: nat, b: Sub, published: nat)
    requires SubInv(size, b, published) && b.replay == [] && b.queue != []
    ensures SubInv(size, b.(queue := b.queue[1..], taken := b.taken + [b.queue[0]]), published)
  {
    QueueDrops(b.enqueued, b.queue, b.taken, b.dropped);
  }

  lemma ReplayKeeps(size: nat, b: Sub, published: nat)
    requires SubInv(size, b, published) && b.replay != []
    ensures SubInv(size, b.(replay := b.replay[1..], replayed := b.replayed + [b.replay[0]]), published)
  {
    assert b.replayed + [b.replay[0]] + b.replay[1..] == b.replayed + b.replay;
  }

  // ---- Messages on their way ----------------------------------------------------------------

  /** Each message to each subscriber is in at most one place: its queue's history, the loop, a thread. */
  ghost predicate Routed(s: State) { PendingOk(s) && SendingOk(s) }

  ghost predicate PendingOk(s: State) {
    && (forall i :: 0 <= i < |s.pending| ==> Waiting(s, s.pending[i]))
    && (forall i, j :: 0 <= i < j < |s.pending| ==> s.pending[i] != s.pending[j])
  }

  ghost predicate SendingOk(s: State) {
    && (forall t, q :: t in s.sending && q in s.sending[t].to ==>
          Waiting(s, Call(q, s.sending[t].msg)) && Call(q, s.sending[t].msg) !in s.pending)
    && (forall t, u :: t in s.sending && u in s.sending && t != u ==> s.sending[t].msg != s.sending[u].msg)
    && (forall t :: t in s.sending ==> s.sending[t].msg < s.published)
  }

  predicate Waiting(s: State, c: Call) {
    c.sub in s.subs && s.subs[c.sub].at <= c.msg < s.published && c.msg !in s.subs[c.sub].enqueued
  }

  ghost predicate SubsOk(size: nat, s: State) { forall q :: q in s.subs ==> SubInv(size, s.subs[q], s.published) }

  ghost predicate Inv(size: nat, s: State) {
    s.replay == Recent(s.published, size) && s.listening <= s.subs.Keys && SubsOk(size, s) && Routed(s)
  }

  lemma PublishRouted(size: nat, s: State, t: nat)
    requires Inv(size, s) && Enabled(s, Publish(t))
    ensures Routed(Do(size, s, Publish(t)))
  {
    var s' := Do(size, s, Publish(t));
    forall c | Waiting(s, c) ensures Waiting(s', c) {
    }
    forall q | q in s.listening ensures Waiting(s', Call(q, s.published)) && Call(q, s.published) !in s.pending {
      assert SubInv(size, s.subs[q], s.published);
    }
  }

  lemma PublishInv(size: nat, s: State, t: nat)
    requires Inv(size, s) && Enabled(s, Publish(t))
    ensures Inv(size, Do(size, s, Publish(t)))
  {
    AppendRecent(s.published, size);
    PublishRouted(size, s, t);
    forall q | q in s.subs ensures SubInv(size, s.subs[q], s.published + 1) {
      assert SubInv(size, s.subs[q], s.published);
    }
  }

  lemma SchedulePending(size: nat, s: State, t: nat, q: nat)
    requires Routed(s) && Enabled(s, Schedule(t, q))
    ensures PendingOk(Do(size, s, Schedule(t, q)))
  {
    var s' := Do(size, s, Schedule(t, q));
    forall i | 0 <= i < |s'.pending| ensures Waiting(s', s'.pending[i]) {
      assert Waiting(s, s'.pending[i]);
    }
  }

  lemma ScheduleSending(size: nat, s: State, t: nat, q: nat)
    requires Routed(s) && Enabled(s, Schedule(t, q))
    ensures SendingOk(Do(size, s, Schedule(t, q)))
  {
    var s' := Do(size, s, Schedule(t, q));
    forall u, r | u in s'.sending && r in s'.sending[u].to
      ensures Waiting(s', Call(r, s'.sending[u].msg)) && Call(r, s'.sending[u].msg) !in s'.pending
    {
      assert Waiting(s, Call(r, s.sending[u].msg));
    }
  }

  lemma ScheduleInv(size: nat, s: State, t: nat, q: nat)
    requires Inv(size, s) && Enabled(s, Schedule(t, q))
    ensures Inv(size, Do(size, s, Schedule(t, q)))
  {
    SchedulePending(size, s, t, q);
    ScheduleSending(size, s, t, q);
  }

  /** Putting one message in a queue leaves every other one waiting. */
  lemma StillWaiting(s: State, c: Call, d: Call)
    requires c.sub in s.subs && Waiting(s, d) && d != c
    ensures Waiting(s.(subs := s.subs[c.sub := Put(s.subs[c.sub], c.msg)]), d)
  {
  }

  lemma RunCallRouted(size: nat, s: State)
    requires Routed(s) && Enabled(s, RunCall)
    ensures Routed(Do(size, s, RunCall))
  {
    var c := s.pending[0];
    var s' := Do(size, s, RunCall);
    forall i | 0 <= i < |s'.pending| ensures Waiting(s', s'.pending[i]) {
      StillWaiting(s, c, s.pending[i + 1]);
    }
    forall t, q | t in s.sending && q in s.sending[t].to
      ensures Waiting(s', Call(q, s.sending[t].msg)) && Call(q, s.sending[t].msg) !in s'.pending
    {
      StillWaiting(s, c, Call(q, s.sending[t].msg));
    }
  }

  lemma RunCallInv(size: nat, s: State)
    requires Inv(size, s) && Enabled(s, RunCall)
    ensures Inv(size, Do(size, s, RunCall))
  {
    var c := s.pending[0];
    assert Waiting(s, c);
    PutKeeps(size, s.subs[c.sub], s.published, c.msg);
    RunCallRouted(size, s);
  }

  /** A step of one subscriber that touches neither what it was sent nor when it came. */
  lemma LocalInv(size: nat, s: State, q: nat, b: Sub)
    requires Inv(size, s) && q in s.subs && SubInv(size, b, s.published)
    requires b.at == s.subs[q].at && b.enqueued == s.subs[q].enqueued
    ensures Inv(size, s.(subs := s.subs[q := b]))
  {
    var s' := s.(subs := s.subs[q := b]);
    assert forall c :: Waiting(s, c) ==> Waiting(s', c);
    assert PendingOk(s');
  }

  lemma SubscribeInv(size: nat, s: State, q: nat)
    requires Inv(size, s) && Enabled(s, Subscribe(q))
    ensures Inv(size, Do(size, s, Subscribe(q)))
  {
    var s' := Do(size, s, Subscribe(q));
    assert forall c :: Waiting(s, c) ==> Waiting(s', c);
    assert PendingOk(s');
    assert SubInv(size, s'.subs[q], s'.published);
  }

  lemma GiveUpInv(size: nat, s: State, t: nat)
    requires Inv(size, s) && Enabled(s, GiveUp(t))
    ensures Inv(size, Do(size, s, GiveUp(t)))
  {
    var s' := Do(size, s, GiveUp(t));
    assert forall c :: Waiting(s, c) ==> Waiting(s', c);
    assert PendingOk(s');
  }

  lemma OtherInv(size: nat, s: State, step: Step)
    requires Inv(size, s) && Enabled(s, step) && (step.Replay? || step.Take? || step.Leave?)
    ensures Inv(size, Do(size, s, step))
  {
    match step
    case Replay(q) =>
      ReplayKeeps(size, s.subs[q], s.published);
      LocalInv(size, s, q, Do(size, s, step).subs[q]);
    case Take(q) =>
      TakeKeeps(size, s.subs[q], s.published);
      LocalInv(size, s, q, Do(size, s, step).subs[q]);
    case Leave(q) =>
      assert forall c :: Waiting(s, c) ==> Waiting(Do(size, s, step), c);
  }

  lemma {:induction false} RunInv(size: nat, steps: seq<Step>)
    requires After(size, steps).Some?
    ensures Inv(size, After(size, steps).value)
  {
    if steps != [] {
      var front, step := steps[..|steps| - 1], steps[|steps| - 1];
      RunInv(size, front);
      var s := After(size, front).value;
      match step
      case Publish(t) => PublishInv(size, s, t);
      case Schedule(t, q) => ScheduleInv(size, s, t, q);
      case RunCall => RunCallInv(size, s);
      case Subscribe(q) => SubscribeInv(size, s, q);
      case GiveUp(t) => GiveUpInv(size, s, t);
      case _ => OtherInv(size, s, step);
    }
  }

  // ---- What a subscriber receives -----------------------------------------------------------

  function Received(b: Sub): seq<nat> { b.replayed + b.taken }

  /** Over every run: nothing comes twice; by replay comes only what was published before the subscription, by
      queue only what came after; the queue is at most four and is the end of all that was sent. */
  lemma HandOver(size: nat, steps: seq<Step>, q: nat)
    requires After(size, steps).Some? && q in After(size, steps).value.subs
    ensures var b := After(size, steps).value.subs[q];
            && NoDup(Received(b))
            && (forall i :: 0 <= i < |b.replayed| ==> b.replayed[i] < b.at)
            && (forall i :: 0 <= i < |b.taken| ==> b.taken[i] >= b.at)
            && QueueOk(b.enqueued, b.queue, b.taken, b.dropped)
  {
    RunInv(size, steps);
    var s := After(size, steps).value;
    assert SubInv(size, s.subs[q], s.published);
    TakenFacts(size, s.subs[q], s.published);
    ReplayedFacts(size, s.subs[q], s.published);
  }

  lemma TakenFacts(size: nat, b: Sub, published: nat)
    requires SubInv(size, b, published)
    ensures NoDup(b.taken) && forall i :: 0 <= i < |b.taken| ==> b.taken[i] >= b.at
  {
    var past := b.enqueued[..|b.enqueued| - |b.queue|];
    SubseqMembers(b.taken, past);
    forall i | 0 <= i < |b.taken| ensures b.taken[i] >= b.at {
      assert b.taken[i] in past;
    }
  }

  lemma ReplayedFacts(size: nat, b: Sub, published: nat)
    requires SubInv(size, b, published)
    ensures Increasing(b.replayed) && forall i :: 0 <= i < |b.replayed| ==> b.replayed[i] < b.at
  {
    var all := Recent(b.at, size);
    assert forall i :: 0 <= i < |b.replayed| ==> b.replayed[i] == all[i];
  }

  // ---- Nothing is missed --------------------------------------------------------------------

  /** Where a payload published since the subscription can be, short of not being sent at all. */
  predicate Accounted(s: State, q: nat, n: nat)
    requires q in s.subs
  {
    || n in s.subs[q].enqueued
    || Call(q, n) in s.pending
    || Call(q, n) in s.lost
    || exists t :: t in s.sending && s.sending[t].msg == n && q in s.sending[t].to
  }

  ghost predicate Covered(s: State) {
    forall q, n :: q in s.listening && q in s.subs && s.subs[q].at <= n < s.published ==> Accounted(s, q, n)
  }

  /** Steps move a payload from one place to the next and never lose sight of it. */
  lemma StepAccounted(size: nat, s: State, step: Step, q: nat, n: nat)
    requires Enabled(s, step) && q in s.subs && Accounted(s, q, n)
    ensures q in Do(size, s, step).subs && Accounted(Do(size, s, step), q, n)
  {
    var s' := Do(size, s, step);
    if n in s.subs[q].enqueued {
    } else if Call(q, n) in s.lost {
    } else if Call(q, n) in s.pending {
      PendingAccounted(size, s, step, q, n);
    } else {
      var t :| t in s.sending && s.sending[t].msg == n && q in s.sending[t].to;
      SendingAccounted(size, s, step, q, n, t);
    }
  }

  lemma PendingAccounted(size: nat, s: State, step: Step, q: nat, n: nat)
    requires Enabled(s, step) && q in s.subs && Call(q, n) in s.pending
    ensures q in Do(size, s, step).subs && Accounted(Do(size, s, step), q, n)
  {
    if step.RunCall? {
      assert s.pending == [s.pending[0]] + s.pending[1..];
      if s.pending[0] == Call(q, n) {
        var b := Do(size, s, step).subs[q];
        assert b.enqueued[|b.enqueued| - 1] == n;
      }
    }
  }

  lemma SendingAccounted(size: nat, s: State, step: Step, q: nat, n: nat, t: nat)
    requires Enabled(s, step) && q in s.subs && t in s.sending && s.sending[t].msg == n && q in s.sending[t].to
    ensures q in Do(size, s, step).subs && Accounted(Do(size, s, step), q, n)
  {
    var s' := Do(size, s, step);
    if step == Schedule(t, q) {
      assert s'.pending[|s.pending|] == Call(q, n);
    } else if step == GiveUp(t) {
      assert Call(q, n) in Calls(s.sending[t].to, n);
    } else {
      assert t in s'.sending && s'.sending[t].msg == n && q in s'.sending[t].to;
    }
  }

  lemma StepCovered(size: nat, s: State, step: Step)
    requires Inv(size, s) && Covered(s) && Enabled(s, step)
    ensures Covered(Do(size, s, step))
  {
    var s' := Do(size, s, step);
    forall q, n | q in s'.listening && q in s'.subs && s'.subs[q].at <= n < s'.published ensures Accounted(s', q, n) {
      if q in s.listening && n < s.published {
        assert s.subs[q].at == s'.subs[q].at;
        StepAccounted(size, s, step, q, n);
      } else if step.Publish? {
        assert s'.sending[step.thread].msg == n && q in s'.sending[step.thread].to;
      }
    }
  }

  lemma {:induction false} RunCovered(size: nat, steps: seq<Step>)
    requires After(size, steps).Some?
    ensures Covered(After(size, steps).value)
  {
    if steps != [] {
      var front := steps[..|steps| - 1];
      RunCovered(size, front);
      RunInv(size, front);
      StepCovered(size, After(size, front).value, steps[|steps| - 1]);
    }
  }

  /** Nothing on its way: no thread still sending, no call waiting in the loop. */
  predicate Quiet(s: State) { s.pending == [] && forall t :: t in s.sending ==> s.sending[t].to == {} }

  lemma {:induction false} SubseqFull(a: seq<nat>, b: seq<nat>)
    requires Subseq(a, b) && |a| == |b|
    ensures a == b
    decreases |b|
  {
    if b != [] {
      var a', b' := a[..|a| - 1], b[..|b| - 1];
      if Subseq(a, b') {
        SubseqMembers(a, b');
      } else {
        SubseqFull(a', b');
      }
      assert a == a' + [a[|a| - 1]] && b == b' + [b[|b| - 1]];
    }
  }

  lemma InHand(size: nat, b: Sub, published: nat)
    requires SubInv(size, b, published) && b.dropped == 0 && b.replay == []
    ensures b.replayed == Recent(b.at, size) && b.taken + b.queue == b.enqueued
  {
    assert b.replayed + [] == b.replayed;
    SubseqFull(b.taken, b.enqueued[..|b.enqueued| - |b.queue|]);
  }

  lemma QuietAccounted(s: State, q: nat, n: nat)
    requires q in s.subs && Quiet(s) && Accounted(s, q, n) && forall c :: c in s.lost ==> c.sub != q
    ensures n in s.subs[q].enqueued
  {
  }

  /** The hand-over has no gap: once all is quiet, a subscriber that lost nothing has in hand exactly what the
      buffer held when it came and everything published since. */
  lemma NoGap(size: nat, steps: seq<Step>, q: nat, n: nat)
    requires After(size, steps).Some?
    requires var s := After(size, steps).value;
             && q in s.listening && q in s.subs && Quiet(s) && s.subs[q].dropped == 0 && s.subs[q].replay == []
             && forall c :: c in s.lost ==> c.sub != q
    ensures var s := After(size, steps).value;
            var b := s.subs[q];
            n in b.replayed + (b.taken + b.queue) <==> (n < b.at && b.at - n <= size) || b.at <= n < s.published
  {
    RecentIs(After(size, steps).value.subs[q].at, size, n);
    var s := After(size, steps).value;
    var b := s.subs[q];
    RunInv(size, steps);
    RunCovered(size, steps);
    assert SubInv(size, b, s.published);
    InHand(size, b, s.published);
    if b.at <= n < s.published {
      assert Accounted(s, q, n);
      QuietAccounted(s, q, n);
    }
  }

  // ---- Order --------------------------------------------------------------------------------

  function Queued(pending: seq<Call>, q: nat): seq<nat> {
    if pending == [] then []
    else
      var front, last := Queued(pending[..|pending| - 1], q), pending[|pending| - 1];
      if last.sub == q then front + [last.msg] else front
  }

  lemma {:induction false} QueuedTail(pending: seq<Call>, q: nat)
    requires pending != []
    ensures Queued(pending, q) == (if pending[0].sub == q then [pending[0].msg] else []) + Queued(pending[1..], q)
  {
    var front := pending[..|pending| - 1];
    if front != [] {
      QueuedTail(front, q);
      assert pending[1..][..|pending| - 2] == front[1..];
    } else {
      assert pending[1..] == [] && Queued(front, q) == [];
    }
  }

  /** Everything sent to `q` so far, whether the loop has run it or not. */
  function Sent(s: State, q: nat): seq<nat>
    requires q in s.subs
  {
    s.subs[q].enqueued + Queued(s.pending, q)
  }

  predicate Below(a: seq<nat>, bound: nat) { forall i :: 0 <= i < |a| ==> a[i] < bound }

  /** With `one` the only publishing thread, everything goes out in the order of publication. */
  ghost predicate InOrder(s: State, one: nat) {
    && (forall t :: t in s.sending ==> t == one)
    && (forall q :: q in s.subs ==> OrderedFor(s, one, q))
  }

  predicate OrderedFor(s: State, one: nat, q: nat)
    requires q in s.subs
  {
    && Increasing(Sent(s, q)) && Below(Sent(s, q), s.published)
    && (one in s.sending && q in s.sending[one].to ==> Below(Sent(s, q), s.sending[one].msg))
  }

  lemma IncreasingAppend(a: seq<nat>, x: nat)
    requires Increasing(a) && Below(a, x)
    ensures Increasing(a + [x]) && Below(a + [x], x + 1)
  {
  }

  lemma ScheduleOrder(size: nat, s: State, one: nat, q: nat)
    requires Inv(size, s) && InOrder(s, one) && Enabled(s, Schedule(one, q))
    ensures InOrder(Do(size, s, Schedule(one, q)), one)
  {
    var s' := Do(size, s, Schedule(one, q));
    var msg := s.sending[one].msg;
    assert s'.pending[..|s.pending|] == s.pending;
    forall p | p in s'.subs ensures OrderedFor(s', one, p) {
      assert OrderedFor(s, one, p);
      if p == q {
        assert Sent(s', p) == Sent(s, p) + [msg];
        IncreasingAppend(Sent(s, p), msg);
      } else {
        assert Sent(s', p) == Sent(s, p);
      }
    }
  }

  lemma RunCallOrder(size: nat, s: State, one: nat)
    requires Inv(size, s) && InOrder(s, one) && Enabled(s, RunCall)
    ensures InOrder(Do(size, s, RunCall), one)
  {
    var s' := Do(size, s, RunCall);
    forall p | p in s'.subs ensures OrderedFor(s', one, p) {
      QueuedTail(s.pending, p);
      assert Sent(s', p) == Sent(s, p);
      assert OrderedFor(s, one, p);
    }
  }

  lemma PublishOrder(size: nat, s: State, one: nat)
    requires Inv(size, s) && InOrder(s, one) && Enabled(s, Publish(one))
    ensures InOrder(Do(size, s, Publish(one)), one)
  {
    var s' := Do(size, s, Publish(one));
    forall q | q in s'.subs ensures OrderedFor(s', one, q) {
      assert Sent(s', q) == Sent(s, q) && OrderedFor(s, one, q);
    }
  }

  lemma NotYetSent(size: nat, s: State, p: nat)
    requires Inv(size, s) && p !in s.subs
    ensures Queued(s.pending, p) == []
  {
    forall i | 0 <= i < |s.pending| ensures s.pending[i].sub != p {
      assert Waiting(s, s.pending[i]);
    }
    NothingYet(s.pending, p);
  }

  lemma SubscribeOrder(size: nat, s: State, one: nat, p: nat)
    requires Inv(size, s) && InOrder(s, one) && Enabled(s, Subscribe(p))
    ensures InOrder(Do(size, s, Subscribe(p)), one)
  {
    var s' := Do(size, s, Subscribe(p));
    NotYetSent(size, s, p);
    forall q | q in s'.subs ensures OrderedFor(s', one, q) {
      if q == p {
        assert Sent(s', q) == [];
      } else {
        assert Sent(s', q) == Sent(s, q) && OrderedFor(s, one, q);
      }
    }
  }

  lemma OtherOrder(size: nat, s: State, one: nat, step: Step)
    requires InOrder(s, one) && Enabled(s, step) && (step.GiveUp? || step.Replay? || step.Take? || step.Leave?)
    ensures InOrder(Do(size, s, step), one)
  {
    var s' := Do(size, s, step);
    forall q | q in s'.subs ensures OrderedFor(s', one, q) {
      assert OrderedFor(s, one, q) && Sent(s', q) == Sent(s, q);
    }
  }

  /** Nothing is on its way to one who has not come yet. */
  lemma {:induction false} NothingYet(pending: seq<Call>, p: nat)
    requires forall i :: 0 <= i < |pending| ==> pending[i].sub != p
    ensures Queued(pending, p) == []
  {
    if pending != [] {
      NothingYet(pending[..|pending| - 1], p);
    }
  }

  /** Only the given threads publish. */
  predicate PublishersIn(steps: seq<Step>, threads: set<nat>) {
    forall i :: 0 <= i < |steps| && steps[i].Publish? ==> steps[i].thread in threads
  }

  lemma {:induction false} RunOrder(size: nat, steps: seq<Step>, one: nat)
    requires After(size, steps).Some? && PublishersIn(steps, {one})
    ensures InOrder(After(size, steps).value, one)
  {
    if steps != [] {
      var front, step := steps[..|steps| - 1], steps[|steps| - 1];
      RunOrder(size, front, one);
      RunInv(size, front);
      var s := After(size, front).value;
      if step.Schedule? {
        ScheduleOrder(size, s, one, step.sub);
      } else if step.RunCall? {
        RunCallOrder(size, s, one);
      } else if step.Publish? {
        PublishOrder(size, s, one);
      } else if step.Subscribe? {
        SubscribeOrder(size, s, one, step.sub);
      } else {
        OtherOrder(size, s, one, step);
      }
    }
  }

  /** With one publishing thread a subscriber receives payloads in the order of publication. */
  lemma ReceivedInOrder(size: nat, steps: seq<Step>, one: nat, q: nat)
    requires After(size, steps).Some? && PublishersIn(steps, {one}) && q in After(size, steps).value.subs
    ensures Increasing(Received(After(size, steps).value.subs[q]))
  {
    var s := After(size, steps).value;
    RunInv(size, steps);
    RunOrder(size, steps, one);
    assert OrderedFor(s, one, q);
    InOrderReceived(size, s, q);
  }

  lemma InOrderReceived(size: nat, s: State, q: nat)
    requires Inv(size, s) && q in s.subs && Increasing(Sent(s, q))
    ensures Increasing(Received(s.subs[q]))
  {
    var b := s.subs[q];
    assert SubInv(size, b, s.published);
    EnqueuedIncreasing(s, q);
    SubseqMembers(b.taken, b.enqueued[..|b.enqueued| - |b.queue|]);
    TakenFacts(size, b, s.published);
    ReplayedFacts(size, b, s.published);
  }

  lemma EnqueuedIncreasing(s: State, q: nat)
    requires q in s.subs && Increasing(Sent(s, q))
    ensures forall k :: 0 <= k <= |s.subs[q].enqueued| ==> Increasing(s.subs[q].enqueued[..k])
  {
    var e := s.subs[q].enqueued;
    assert forall i :: 0 <= i < |e| ==> Sent(s, q)[i] == e[i];
  }

  // ---- Two publishing threads ---------------------------------------------------------------

  lemma Extend(size: nat, steps: seq<Step>, s: State, step: Step, threads: set<nat>) returns (steps': seq<Step>, s': State)
    requires After(size, steps) == Some(s) && Enabled(s, step) && PublishersIn(steps, threads)
    requires step.Publish? ==> step.thread in threads
    ensures steps' == steps + [step] && s' == Do(size, s, step)
    ensures After(size, steps') == Some(s') && PublishersIn(steps', threads)
  {
    steps', s' := steps + [step], Do(size, s, step);
    assert steps'[..|steps|] == steps;
  }

  /** Two threads publish, and the second hands its payload to the loop first. */
  lemma BothScheduled(size: nat, a: nat, b: nat) returns (steps: seq<Step>, s: State)
    requires a != b
    ensures After(size, steps) == Some(s) && PublishersIn(steps, {a, b})
    ensures 7 in s.subs && s.subs[7] == Sub(0, [], [], [], [], [], 0) && s.pending == [Call(7, 1), Call(7, 0)]
  {
    steps, s := [], Initial();
    steps, s := Extend(size, steps, s, Subscribe(7), {a, b});
    steps, s := Extend(size, steps, s, Publish(a), {a, b});
    steps, s := Extend(size, steps, s, Publish(b), {a, b});
    steps, s := Extend(size, steps, s, Schedule(b, 7), {a, b});
    steps, s := Extend(size, steps, s, Schedule(a, 7), {a, b});
  }

  lemma BothTaken(size: nat, before: seq<Step>, from: State, threads: set<nat>) returns (steps: seq<Step>, s: State)
    requires After(size, before) == Some(from) && PublishersIn(before, threads)
    requires 7 in from.subs && from.subs[7] == Sub(0, [], [], [], [], [], 0) && from.pending == [Call(7, 1), Call(7, 0)]
    ensures After(size, steps) == Some(s) && PublishersIn(steps, threads) && 7 in s.subs && Received(s.subs[7]) == [1, 0]
  {
    steps, s := Extend(size, before, from, RunCall, threads);
    steps, s := Extend(size, steps, s, RunCall, threads);
    assert s.subs[7].queue == [1, 0];
    steps, s := Extend(size, steps, s, Take(7), threads);
    steps, s := Extend(size, steps, s, Take(7), threads);
  }

  /** Any two publishing threads can make a subscriber receive payloads the wrong way round. */
  lemma TwoPublishersOutOfOrder(size: nat, a: nat, b: nat) returns (steps: seq<Step>)
    requires a != b
    ensures PublishersIn(steps, {a, b}) && After(size, steps).Some? && 7 in After(size, steps).value.subs
    ensures !Increasing(Received(After(size, steps).value.subs[7]))
  {
    var before, from := BothScheduled(size, a, b);
    var s;
    steps, s := BothTaken(size, before, from, {a, b});
    assert Received(s.subs[7])[0] >= Received(s.subs[7])[1];
  }

  /** A run in which only the given threads publish, and a subscriber of it. */
  predicate RunOf(size: nat, threads: set<nat>, steps: seq<Step>, q: nat) {
    PublishersIn(steps, threads) && After(size, steps).Some? && q in After(size, steps).value.subs
  }

  /** Every subscriber of every run receives payloads in the order of publication exactly if at most one thread
      publishes. */
  lemma InOrderIff(size: nat, threads: set<nat>)
    ensures (forall steps, q :: RunOf(size, threads, steps, q) ==> Increasing(Received(After(size, steps).value.subs[q])))
       <==> |threads| <= 1
  {
    if |threads| <= 1 {
      var one := OnlyThread(threads);
      forall steps, q | RunOf(size, threads, steps, q) ensures Increasing(Received(After(size, steps).value.subs[q])) {
        ReceivedInOrder(size, steps, one, q);
      }
    } else {
      var a :| a in threads;
      assert |threads - {a}| > 0;
      var b :| b in threads - {a};
      var steps := TwoPublishersOutOfOrder(size, a, b);
      assert RunOf(size, threads, steps, 7);
    }
  }

  lemma OnlyThread(threads: set<nat>) returns (one: nat)
    requires |threads| <= 1
    ensures threads <= {one}
  {
    one := 0;
    if threads != {} {
      one :| one in threads;
      assert |threads - {one}| == 0;
    }
  }
}
