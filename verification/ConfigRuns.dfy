/** Threads of several processes loading, saving and mutating one configuration file.

    `versions` is everything the file has ever held; its modification time is the number of writes so
    far, so every write has a fresh one. Each process has its own cache of (modification time,
    content). Writers hold the cross-process lock; plain loads take no lock. */
module ConfigRuns {
  import opened ConfigStore
  import opened Wrappers

  /** Why a load is running. The last two run under the lock and bypass the cache first. */
  datatype Purpose =
    | Plain                                  // load_config for a caller
    | Probe(mint: string)                    // the first look of get_or_generate_cid_salt
    | ForMutation(job: Job)
    | ForSalt(job: Job, wanted: Config)      // _disk_cid_salt, just before the write

  datatype Stage =
    | Forgetting                             // drop this process's cache entry first
    | Stat
    | Check(mtime: nat)
    | Read(mtime: nat)
    | Store(mtime: nat, content: Config)

  datatype Result =
    | Loaded(content: Option<Config>)
    | Salted(salt: SaltField)
    | ProcessLocal                           // no configuration: a per-process salt is handed out
    | Saved(config: Config)
    | Unconfigured                           // mutate_config found no file

  datatype Phase =
    | Idle
    | Loading(purpose: Purpose, since: nat, stage: Stage)
    | Waiting(job: Job)                      // for the lock
    | Writing(job: Job, content: Config, mint: string)
    | Dropping(job: Job, content: Config)    // written; the cache entry is dropped next
    | Unlocking(job: Job, result: Result)
    | Returned(since: nat, result: Result)

  datatype Entry = Entry(mtime: nat, content: Config)

  datatype Thread = Thread(process: nat, phase: Phase)

  datatype State = State(
    versions: seq<Option<Config>>, lock: Option<nat>, caches: map<nat, Entry>, threads: seq<Thread>,
    log: seq<(Job, string)>)

  datatype Step =
    | StartLoad(t: nat)
    | StartSalt(t: nat, mint: string)
    | StartJob(t: nat, job: Job)
    | GiveUp(t: nat)                         // the lock was not acquired in time
    | Evict(process: nat)                    // the cache may drop an entry at any time
    | Advance(t: nat, mint: string)

  function Now(s: State): nat
    requires s.versions != []
  {
    |s.versions| - 1
  }

  function Current(s: State): Option<Config>
    requires s.versions != []
  {
    s.versions[|s.versions| - 1]
  }

  predicate Locked(p: Purpose) { p.ForMutation? || p.ForSalt? }

  /** Phases that run inside `config_lock`. */
  predicate Holding(p: Phase) {
    (p.Loading? && Locked(p.purpose)) || p.Writing? || p.Dropping? || p.Unlocking?
  }

  predicate Enabled(s: State, step: Step) {
    match step
    case StartLoad(t) => t < |s.threads| && (s.threads[t].phase.Idle? || s.threads[t].phase.Returned?)
    case StartSalt(t, mint) =>
      t < |s.threads| && (s.threads[t].phase.Idle? || s.threads[t].phase.Returned?) && mint != ""
    case StartJob(t, job) =>
      t < |s.threads| && (s.threads[t].phase.Idle? || s.threads[t].phase.Returned?) && !job.Adopt?
    case GiveUp(t) => t < |s.threads| && s.threads[t].phase.Waiting?
    case Evict(_) => true
    case Advance(t, mint) =>
      && t < |s.threads| && mint != ""
      && !s.threads[t].phase.Idle? && !s.threads[t].phase.Returned?
      && (s.threads[t].phase.Waiting? ==> s.lock == None)
  }

  function Move(s: State, t: nat, phase: Phase): State
    requires t < |s.threads|
  {
    s.(threads := s.threads[t := s.threads[t].(phase := phase)])
  }

  /** What happens with a load's result. */
  function Deliver(s: State, purpose: Purpose, since: nat, content: Option<Config>, mint: string): Phase
    requires s.versions != []
  {
    match purpose
    case Plain => Returned(since, Loaded(content))
    case Probe(m) =>
      if content.None? || IsEmpty(content.value) then Returned(since, ProcessLocal)
      else if HasSalt(content.value) then Returned(since, Salted(content.value.rum.salt))
      else Waiting(Adopt(m))
    case ForMutation(job) =>
      if content.None? then Unlocking(job, Unconfigured)
      else Loading(ForSalt(job, Wanted(job, content)), Now(s), Forgetting)
    case ForSalt(job, wanted) => Writing(job, FixUp(DiskSalt(content), wanted, mint), mint)
  }

  function AdvanceLoad(s: State, t: nat, mint: string): State
    requires t < |s.threads| && s.threads[t].phase.Loading? && s.versions != []
  {
    var Loading(purpose, since, stage) := s.threads[t].phase;
    var process := s.threads[t].process;
    match stage
    case Forgetting => Move(s, t, Loading(purpose, since, Stat)).(caches := s.caches - {process})
    case Stat =>
      if Current(s).None? then Move(s, t, Deliver(s, purpose, since, None, mint))
      else Move(s, t, Loading(purpose, since, Check(Now(s))))
    case Check(m) =>
      if process in s.caches && s.caches[process].mtime == m
      then Move(s, t, Deliver(s, purpose, since, Some(s.caches[process].content), mint))
      else Move(s, t, Loading(purpose, since, Read(m)))
    case Read(m) =>
      if Current(s).None? then s   // the file never disappears; see the invariant
      else Move(s, t, Loading(purpose, since, Store(m, Current(s).value)))
    case Store(m, c) =>
      Move(s, t, Deliver(s, purpose, since, Some(c), mint)).(caches := s.caches[process := Entry(m, c)])
  }

  function AdvanceThread(s: State, t: nat, mint: string): State
    requires t < |s.threads| && s.versions != []
  {
    match s.threads[t].phase
    case Loading(_, _, _) => AdvanceLoad(s, t, mint)
    case Waiting(job) =>
      Move(s, t, Loading(if job.Save? then ForSalt(job, job.config) else ForMutation(job), Now(s), Forgetting))
      .(lock := Some(t))
    case Writing(job, content, m) =>
      Move(s, t, Dropping(job, content)).(versions := s.versions + [Some(content)], log := s.log + [(job, m)])
    case Dropping(job, content) =>
      Move(s, t, Unlocking(job, if job.Adopt? && content.rum.Dict? then Salted(content.rum.salt) else Saved(content)))
      .(caches := s.caches - {s.threads[t].process})
    case Unlocking(job, result) =>
      Move(s, t, if job.Adopt? && result.Unconfigured? then Loading(Probe(job.mint), Now(s), Stat)
                 else Returned(Now(s), result)).(lock := None)
    case _ => s
  }

  function Next(s: State, step: Step): State
    requires Enabled(s, step) && s.versions != []
  {
    match step
    case StartLoad(t) => Move(s, t, Loading(Plain, Now(s), Stat))
    case StartSalt(t, mint) => Move(s, t, Loading(Probe(mint), Now(s), Stat))
    case StartJob(t, job) => Move(s, t, Waiting(job))
    case GiveUp(t) => Move(s, t, Idle)
    case Evict(p) => s.(caches := s.caches - {p})
    case Advance(t, mint) => AdvanceThread(s, t, mint)
  }

  // ---- Invariants ---------------------------------------------------------------------------

  /** The file held `content` at some write number in `[from, now]`. */
  ghost predicate Seen(versions: seq<Option<Config>>, from: nat, content: Option<Config>) {
    exists k :: from <= k < |versions| && versions[k] == content
  }

  lemma SeenGrows(versions: seq<Option<Config>>, v: Option<Config>, from: nat, content: Option<Config>)
    requires Seen(versions, from, content)
    ensures Seen(versions + [v], from, content)
  {
    var k :| from <= k < |versions| && versions[k] == content;
    assert (versions + [v])[k] == content;
  }

  ghost predicate StageOk(versions: seq<Option<Config>>, since: nat, stage: Stage) {
    match stage
    case Forgetting => true
    case Stat => true
    case Check(m) => since <= m < |versions| && versions[m].Some?
    case Read(m) => since <= m < |versions| && versions[m].Some?
    case Store(m, c) => since <= m < |versions| && Seen(versions, m, Some(c))
  }

  ghost predicate ResultOk(versions: seq<Option<Config>>, since: nat, result: Result) {
    match result
    case Loaded(content) => Seen(versions, since, content)
    case Salted(salt) => exists k :: 0 <= k < |versions| && versions[k].Some?
                           && HasSalt(versions[k].value) && versions[k].value.rum.salt == salt
    case ProcessLocal => exists k :: since <= k < |versions|
                           && (versions[k].None? || IsEmpty(versions[k].value))
    case Saved(content) => Seen(versions, 0, Some(content))
    case Unconfigured => true
  }

  /** What each phase knows about the file. Phases that hold the lock know the current version. */
  ghost predicate PhaseOk(versions: seq<Option<Config>>, p: Phase) {
    versions != [] &&
    var now := |versions| - 1;
    match p
    case Idle => true
    case Waiting(job) => true
    case Loading(purpose, since, stage) =>
      && since <= now && StageOk(versions, since, stage)
      && (Locked(purpose) ==> since == now)
      && (purpose.ForMutation? ==> !purpose.job.Save?)
      && (purpose.ForSalt? ==>
            (purpose.job.Save? || versions[now].Some?) && purpose.wanted == Wanted(purpose.job, versions[now]))
    case Writing(job, content, mint) =>
      (job.Save? || versions[now].Some?) && content == Commit(job, versions[now], mint) && mint != ""
    case Dropping(job, content) => versions[now] == Some(content) && HasSalt(content)
    case Unlocking(job, result) => ResultOk(versions, 0, result) && !result.Loaded? && !result.ProcessLocal?
    case Returned(since, result) => since <= now && ResultOk(versions, since, result)
  }

  ghost predicate CacheOk(versions: seq<Option<Config>>, caches: map<nat, Entry>) {
    forall p :: p in caches ==> Seen(versions, caches[p].mtime, Some(caches[p].content))
  }

  /** Replaying the committed jobs from the first version. */
  ghost predicate LogOk(versions: seq<Option<Config>>, log: seq<(Job, string)>) {
    && |versions| == |log| + 1
    && forall k :: 0 <= k < |log| ==>
         && (log[k].0.Save? || versions[k].Some?)
         && log[k].1 != ""
         && versions[k + 1] == Some(Commit(log[k].0, versions[k], log[k].1))
  }

  ghost predicate Inv(s: State) {
    && LogOk(s.versions, s.log)
    && CacheOk(s.versions, s.caches)
    && (forall t: nat :: t < |s.threads| ==> PhaseOk(s.versions, s.threads[t].phase))
    && (forall t: nat :: t < |s.threads| && Holding(s.threads[t].phase) ==> s.lock == Some(t))
  }

  /** Once there is a file there always is one. */
  lemma {:induction false} FileStays(versions: seq<Option<Config>>, log: seq<(Job, string)>, i: nat, j: nat)
    requires LogOk(versions, log) && i <= j < |versions| && versions[i].Some?
    ensures versions[j].Some?
  {
    if i < j {
      assert versions[(j - 1) + 1] == Some(Commit(log[j - 1].0, versions[j - 1], log[j - 1].1));
    }
  }

  lemma ResultGrows(versions: seq<Option<Config>>, v: Option<Config>, since: nat, result: Result)
    requires ResultOk(versions, since, result)
    ensures ResultOk(versions + [v], since, result)
  {
    var more := versions + [v];
    match result
    case Loaded(content) => SeenGrows(versions, v, since, content);
    case Salted(salt) =>
      var k :| 0 <= k < |versions| && versions[k].Some?
               && HasSalt(versions[k].value) && versions[k].value.rum.salt == salt;
      assert more[k] == versions[k];
    case ProcessLocal =>
      var k :| since <= k < |versions| && (versions[k].None? || IsEmpty(versions[k].value));
      assert more[k] == versions[k];
    case Saved(content) => SeenGrows(versions, v, 0, Some(content));
    case Unconfigured =>
  }

  /** What a thread outside the lock knows survives another thread's write. */
  lemma PhaseGrows(versions: seq<Option<Config>>, v: Option<Config>, p: Phase)
    requires PhaseOk(versions, p) && !Holding(p)
    ensures PhaseOk(versions + [v], p)
  {
    match p
    case Loading(purpose, since, stage) =>
      if stage.Store? {
        SeenGrows(versions, v, stage.mtime, Some(stage.content));
      }
    case Returned(since, result) => ResultGrows(versions, v, since, result);
    case _ =>
  }

  /** A load that runs under the lock returns the current version: nobody else can write meanwhile. */
  lemma LoadResult(versions: seq<Option<Config>>, since: nat, from: nat, content: Option<Config>)
    requires versions != [] && since <= from && Seen(versions, from, content)
    ensures Seen(versions, since, content)
    ensures since == |versions| - 1 ==> content == versions[|versions| - 1]
  {}

  lemma DeliverOk(s: State, purpose: Purpose, since: nat, content: Option<Config>, mint: string)
    requires s.versions != [] && mint != "" && Seen(s.versions, since, content)
    requires PhaseOk(s.versions, Loading(purpose, since, Stat))
    ensures PhaseOk(s.versions, Deliver(s, purpose, since, content, mint))
    ensures Holding(Deliver(s, purpose, since, content, mint)) <==> Locked(purpose)
  {
    LoadResult(s.versions, since, since, content);
    var k :| since <= k < |s.versions| && s.versions[k] == content;
  }

  /** What a thread keeps that does not write: it knows what its phase says, and nothing false is cached. */
  ghost predicate LoadKeeps(s: State, t: nat, s': State)
    requires t < |s.threads|
  {
    && t < |s'.threads| && PhaseOk(s.versions, s'.threads[t].phase)
    && (Holding(s'.threads[t].phase) <==> Holding(s.threads[t].phase))
    && CacheOk(s.versions, s'.caches)
  }

  lemma StatOk(s: State, t: nat, mint: string)
    requires Inv(s) && t < |s.threads| && s.threads[t].phase.Loading? && s.threads[t].phase.stage.Stat? && mint != ""
    ensures LoadKeeps(s, t, AdvanceLoad(s, t, mint))
  {
    var Loading(purpose, since, stage) := s.threads[t].phase;
    assert PhaseOk(s.versions, s.threads[t].phase);
    assert s.versions[Now(s)] == Current(s);
    assert Seen(s.versions, since, Current(s));
    if Current(s).None? {
      DeliverOk(s, purpose, since, None, mint);
    }
  }

  lemma CheckOk(s: State, t: nat, mint: string)
    requires Inv(s) && t < |s.threads| && s.threads[t].phase.Loading? && s.threads[t].phase.stage.Check? && mint != ""
    ensures LoadKeeps(s, t, AdvanceLoad(s, t, mint))
  {
    var Loading(purpose, since, stage) := s.threads[t].phase;
    var process := s.threads[t].process;
    assert PhaseOk(s.versions, s.threads[t].phase);
    if process in s.caches && s.caches[process].mtime == stage.mtime {
      LoadResult(s.versions, since, stage.mtime, Some(s.caches[process].content));
      DeliverOk(s, purpose, since, Some(s.caches[process].content), mint);
    }
  }

  lemma ReadOk(s: State, t: nat, mint: string)
    requires Inv(s) && t < |s.threads| && s.threads[t].phase.Loading? && s.threads[t].phase.stage.Read? && mint != ""
    ensures LoadKeeps(s, t, AdvanceLoad(s, t, mint))
  {
    var m := s.threads[t].phase.stage.mtime;
    assert PhaseOk(s.versions, s.threads[t].phase);
    FileStays(s.versions, s.log, m, Now(s));
    assert s.versions[Now(s)] == Current(s);
    assert Seen(s.versions, m, Current(s));
  }

  lemma StoreOk(s: State, t: nat, mint: string)
    requires Inv(s) && t < |s.threads| && s.threads[t].phase.Loading? && s.threads[t].phase.stage.Store? && mint != ""
    ensures LoadKeeps(s, t, AdvanceLoad(s, t, mint))
  {
    var Loading(purpose, since, stage) := s.threads[t].phase;
    assert PhaseOk(s.versions, s.threads[t].phase);
    LoadResult(s.versions, since, stage.mtime, Some(stage.content));
    DeliverOk(s, purpose, since, Some(stage.content), mint);
  }

  lemma AdvanceLoadOk(s: State, t: nat, mint: string)
    requires Inv(s) && t < |s.threads| && s.threads[t].phase.Loading? && mint != ""
    ensures LoadKeeps(s, t, AdvanceLoad(s, t, mint))
  {
    match s.threads[t].phase.stage
    case Forgetting =>
      assert PhaseOk(s.versions, s.threads[t].phase);
    case Stat => StatOk(s, t, mint);
    case Check(_) => CheckOk(s, t, mint);
    case Read(_) => ReadOk(s, t, mint);
    case Store(_, _) => StoreOk(s, t, mint);
  }

  lemma WriteOk(s: State, t: nat, mint: string)
    requires Inv(s) && t < |s.threads| && s.threads[t].phase.Writing?
    ensures Inv(AdvanceThread(s, t, mint))
  {
    var Writing(job, content, m) := s.threads[t].phase;
    var s' := AdvanceThread(s, t, mint);
    assert PhaseOk(s.versions, s.threads[t].phase);
    CommitKeepsSalt(job, Current(s), m);
    forall p | p in s'.caches ensures Seen(s'.versions, s'.caches[p].mtime, Some(s'.caches[p].content)) {
      SeenGrows(s.versions, Some(content), s.caches[p].mtime, Some(s.caches[p].content));
    }
    forall u: nat | u < |s'.threads| ensures PhaseOk(s'.versions, s'.threads[u].phase) {
      if u != t {
        assert !Holding(s.threads[u].phase);
        PhaseGrows(s.versions, Some(content), s.threads[u].phase);
      }
    }
    forall k | 0 <= k < |s'.log|
      ensures (s'.log[k].0.Save? || s'.versions[k].Some?) && s'.log[k].1 != ""
      ensures s'.versions[k + 1] == Some(Commit(s'.log[k].0, s'.versions[k], s'.log[k].1))
    {
      if k < |s.log| {
        assert s'.log[k] == s.log[k] && s'.versions[k] == s.versions[k] && s'.versions[k + 1] == s.versions[k + 1];
      }
    }
  }

  lemma QuietOk(s: State, t: nat, mint: string)
    requires Inv(s) && t < |s.threads| && mint != ""
    requires s.threads[t].phase.Waiting? || s.threads[t].phase.Dropping? || s.threads[t].phase.Unlocking?
    requires s.threads[t].phase.Waiting? ==> s.lock == None
    ensures Inv(AdvanceThread(s, t, mint))
  {
    var s' := AdvanceThread(s, t, mint);
    assert PhaseOk(s.versions, s.threads[t].phase);
    if s.threads[t].phase.Dropping? {
      assert s.versions[Now(s)] == Some(s.threads[t].phase.content);
      assert PhaseOk(s'.versions, s'.threads[t].phase);
    } else if s.threads[t].phase.Unlocking? {
      assert PhaseOk(s'.versions, s'.threads[t].phase);
    }
  }

  lemma AdvanceLoadInv(s: State, t: nat, mint: string)
    requires Inv(s) && t < |s.threads| && s.threads[t].phase.Loading? && mint != ""
    ensures Inv(AdvanceLoad(s, t, mint))
  {
    AdvanceLoadOk(s, t, mint);
    AdvanceLoadFrame(s, t, mint);
    OthersKeep(s, t, AdvanceLoad(s, t, mint));
  }

  /** One thread's turn that writes nothing leaves the others as they are. */
  ghost predicate OnlyThread(s: State, t: nat, s': State) {
    && s'.versions == s.versions && s'.lock == s.lock && s'.log == s.log && |s'.threads| == |s.threads|
    && forall u: nat :: u < |s.threads| && u != t ==> s'.threads[u] == s.threads[u]
  }

  lemma AdvanceLoadFrame(s: State, t: nat, mint: string)
    requires s.versions != [] && t < |s.threads| && s.threads[t].phase.Loading?
    ensures OnlyThread(s, t, AdvanceLoad(s, t, mint))
  {
  }

  lemma OthersKeep(s: State, t: nat, s': State)
    requires Inv(s) && t < |s.threads| && OnlyThread(s, t, s') && LoadKeeps(s, t, s')
    ensures Inv(s')
  {
    forall u: nat | u < |s'.threads| ensures PhaseOk(s'.versions, s'.threads[u].phase) {
      assert u != t ==> s'.threads[u] == s.threads[u];
    }
  }

  lemma StartInv(s: State, step: Step)
    requires Inv(s) && Enabled(s, step) && !step.Advance?
    ensures Inv(Next(s, step))
  {}

  lemma StepInv(s: State, step: Step)
    requires Inv(s) && Enabled(s, step)
    ensures Inv(Next(s, step))
  {
    if !step.Advance? {
      StartInv(s, step);
    } else {
      var phase := s.threads[step.t].phase;
      if phase.Loading? {
        AdvanceLoadInv(s, step.t, step.mint);
      } else if phase.Writing? {
        WriteOk(s, step.t, step.mint);
      } else if phase.Waiting? || phase.Dropping? || phase.Unlocking? {
        QuietOk(s, step.t, step.mint);
      }
    }
  }

  // ---- Runs ---------------------------------------------------------------------------------

  /** No run in progress: the file as found, nothing cached, one process number per thread. */
  function Initial(file: Option<Config>, processes: seq<nat>): State {
    State([file], None, map[], seq(|processes|, i requires 0 <= i < |processes| => Thread(processes[i], Idle)), [])
  }

  ghost predicate Path(s: State, steps: seq<Step>, s': State)
    decreases |steps|
  {
    if steps == [] then s == s'
    else s.versions != [] && Enabled(s, steps[0]) && Path(Next(s, steps[0]), steps[1..], s')
  }

  lemma {:induction false} PathInv(s: State, steps: seq<Step>, s': State)
    requires Inv(s) && Path(s, steps, s')
    ensures Inv(s')
    decreases |steps|
  {
    if steps != [] {
      StepInv(s, steps[0]);
      PathInv(Next(s, steps[0]), steps[1..], s');
    }
  }

  lemma RunInv(file: Option<Config>, processes: seq<nat>, steps: seq<Step>, s: State)
    requires Path(Initial(file, processes), steps, s)
    ensures Inv(s)
  {
    PathInv(Initial(file, processes), steps, s);
  }

  /** Coherence: whenever a load has returned, it returned content the file held at some moment
      between the start of the call and now, although it took no lock and may have hit the cache. */
  lemma LoadsAreCoherent(file: Option<Config>, processes: seq<nat>, steps: seq<Step>, s: State, t: nat)
    requires Path(Initial(file, processes), steps, s)
    requires t < |s.threads| && s.threads[t].phase.Returned? && s.threads[t].phase.result.Loaded?
    ensures exists k :: s.threads[t].phase.since <= k < |s.versions|
                        && s.versions[k] == s.threads[t].phase.result.content
  {
    RunInv(file, processes, steps, s);
    assert PhaseOk(s.versions, s.threads[t].phase);
  }

  /** A load that began in state `s`, followed through a run in which its thread starts nothing else. */
  predicate StartedBy(step: Step, t: nat) {
    (step.StartLoad? && step.t == t) || (step.StartSalt? && step.t == t) || (step.StartJob? && step.t == t)
  }

  predicate Running(s: State, t: nat, since: nat) {
    t < |s.threads| &&
    match s.threads[t].phase
    case Loading(Plain, from, _) => from == since
    case Returned(from, Loaded(_)) => from == since
    case _ => false
  }

  lemma RunningStep(s: State, step: Step, t: nat, since: nat)
    requires s.versions != [] && Enabled(s, step) && !StartedBy(step, t) && Running(s, t, since)
    ensures Running(Next(s, step), t, since) && Next(s, step).versions != []
  {
  }

  lemma {:induction false} RunningPath(s: State, steps: seq<Step>, s': State, t: nat, since: nat)
    requires s.versions != [] && Path(s, steps, s') && Running(s, t, since)
    requires forall x <- steps :: !StartedBy(x, t)
    ensures Running(s', t, since)
    decreases |steps|
  {
    if steps != [] {
      assert steps[0] in steps;
      RunningStep(s, steps[0], t, since);
      RunningPath(Next(s, steps[0]), steps[1..], s', t, since);
    }
  }

  /** The whole life of one load: started in `s` after any run, and returned in `s'`. What it returns, the
      file held at some moment between the two. */
  lemma LoadWindow(file: Option<Config>, processes: seq<nat>, before: seq<Step>, s: State, t: nat, after: seq<Step>, s': State)
    requires Path(Initial(file, processes), before, s) && s.versions != [] && Enabled(s, StartLoad(t))
    requires Path(Next(s, StartLoad(t)), after, s') && forall x <- after :: !StartedBy(x, t)
    requires t < |s'.threads| && s'.threads[t].phase.Returned?
    ensures s'.threads[t].phase.result.Loaded?
    ensures exists k :: |s.versions| - 1 <= k < |s'.versions| && s'.versions[k] == s'.threads[t].phase.result.content
  {
    RunInv(file, processes, before, s);
    StepInv(s, StartLoad(t));
    PathInv(Next(s, StartLoad(t)), after, s');
    RunningPath(Next(s, StartLoad(t)), after, s', t, |s.versions| - 1);
    assert PhaseOk(s'.versions, s'.threads[t].phase);
  }

  /** Writers exclude each other. */
  lemma OneWriter(file: Option<Config>, processes: seq<nat>, steps: seq<Step>, s: State, t: nat, u: nat)
    requires Path(Initial(file, processes), steps, s)
    requires t < |s.threads| && u < |s.threads|
    requires Holding(s.threads[t].phase) && Holding(s.threads[u].phase)
    ensures t == u
  {
    RunInv(file, processes, steps, s);
  }

  /** The committed jobs applied one after another. */
  ghost function Replay(file: Option<Config>, log: seq<(Job, string)>): Option<Config>
    decreases |log|
  {
    if log == [] then file
    else
      var before := Replay(file, log[..|log| - 1]);
      var (job, mint) := log[|log| - 1];
      if job.Save? || before.Some? then Some(StoredBy(job, before, mint)) else None
  }

  lemma {:induction false} ReplayVersions(versions: seq<Option<Config>>, log: seq<(Job, string)>, n: nat)
    requires LogOk(versions, log) && n <= |log|
    ensures Replay(versions[0], log[..n]) == versions[n]
  {
    if n > 0 {
      ReplayVersions(versions, log, n - 1);
      assert log[..n][..n - 1] == log[..n - 1];
      assert versions[(n - 1) + 1] == Some(Commit(log[n - 1].0, versions[n - 1], log[n - 1].1));
      CommitStores(log[n - 1].0, versions[n - 1], log[n - 1].1);
    }
  }

  /** No lost update: at every moment of every run the file is exactly what the committed jobs store one
      after another, in lock order, starting from the file of the beginning. */
  lemma NoLostUpdate(file: Option<Config>, processes: seq<nat>, steps: seq<Step>, s: State)
    requires Path(Initial(file, processes), steps, s)
    ensures s.versions != [] && Current(s) == Replay(file, s.log)
  {
    RunInv(file, processes, steps, s);
    FirstVersion(Initial(file, processes), steps, s);
    ReplayVersions(s.versions, s.log, |s.log|);
    assert s.log[..|s.log|] == s.log;
  }

  lemma {:induction false} FirstVersion(s: State, steps: seq<Step>, s': State)
    requires s.versions != [] && Path(s, steps, s')
    ensures s'.versions != [] && s'.versions[0] == s.versions[0]
    decreases |steps|
  {
    if steps != [] {
      FirstVersion(Next(s, steps[0]), steps[1..], s');
    }
  }

  /** Write-once over every run: a persisted salt is never replaced by any later write. */
  lemma {:induction false} SaltNeverChanges(versions: seq<Option<Config>>, log: seq<(Job, string)>, i: nat, j: nat, salt: string)
    requires LogOk(versions, log) && i <= j < |versions| && versions[i].Some? && TextSalt(versions[i].value, salt)
    ensures versions[j].Some? && TextSalt(versions[j].value, salt)
  {
    if i < j {
      SaltNeverChanges(versions, log, i, j - 1, salt);
      assert versions[(j - 1) + 1] == Some(Commit(log[j - 1].0, versions[j - 1], log[j - 1].1));
      CommitKeepsSalt(log[j - 1].0, versions[j - 1], log[j - 1].1);
    }
  }

  // ---- Salt agreement -----------------------------------------------------------------------

  /** The salt, where there is one, is text. */
  predicate Typed(c: Config) { !(c.rum.Dict? && c.rum.salt.Other?) }

  ghost predicate TypedJob(job: Job) {
    match job
    case Save(c) => Typed(c)
    case Mutate(f) => forall c :: Typed(c) ==> Typed(f(c))
    case Adopt(_) => true
  }

  /** A configured service: the file exists, is not the empty object, and its salt, if any, is text. */
  predicate Configured(file: Option<Config>) { file.Some? && file.value != Config(None, NoRum, map[]) && Typed(file.value) }

  ghost predicate TypedPhase(p: Phase) {
    match p
    case Waiting(job) => TypedJob(job)
    case Loading(ForMutation(job), _, _) => TypedJob(job)
    case Loading(ForSalt(job, _), _, _) => TypedJob(job)
    case Writing(job, _, _) => TypedJob(job)
    case _ => true
  }

  ghost predicate TypedState(s: State) {
    && (forall t: nat :: t < |s.threads| ==> TypedPhase(s.threads[t].phase))
    && (forall k: nat :: k < |s.log| ==> TypedJob(s.log[k].0))
  }

  ghost predicate TypedStep(step: Step) { step.StartJob? ==> TypedJob(step.job) }

  lemma TypedNext(s: State, step: Step)
    requires s.versions != [] && Enabled(s, step) && TypedStep(step) && TypedState(s)
    ensures TypedState(Next(s, step))
  {
    if !step.Evict? {
      assert TypedPhase(s.threads[step.t].phase);
    }
  }

  lemma {:induction false} TypedPath(s: State, steps: seq<Step>, s': State)
    requires Path(s, steps, s') && TypedState(s)
    requires forall x <- steps :: TypedStep(x)
    ensures TypedState(s')
    decreases |steps|
  {
    if steps != [] {
      assert steps[0] in steps;
      TypedNext(s, steps[0]);
      TypedPath(Next(s, steps[0]), steps[1..], s');
    }
  }

  lemma CommitConfigured(job: Job, file: Option<Config>, mint: string)
    requires Configured(file) && TypedJob(job) && mint != ""
    ensures Configured(Some(Commit(job, file, mint)))
  {
    CommitKeepsSalt(job, file, mint);
  }

  lemma {:induction false} AlwaysConfigured(versions: seq<Option<Config>>, log: seq<(Job, string)>, k: nat)
    requires LogOk(versions, log) && k < |versions| && Configured(versions[0])
    requires forall i: nat :: i < |log| ==> TypedJob(log[i].0)
    ensures Configured(versions[k])
  {
    if k > 0 {
      AlwaysConfigured(versions, log, k - 1);
      assert versions[(k - 1) + 1] == Some(Commit(log[k - 1].0, versions[k - 1], log[k - 1].1));
      CommitConfigured(log[k - 1].0, versions[k - 1], log[k - 1].1);
    }
  }

  /** Every call that has returned a salt returned the one the file now holds, and none fell back to a salt
      of its own process. */
  predicate Agreed(s: State) {
    s.versions != [] && forall t :: 0 <= t < |s.threads| && s.threads[t].phase.Returned? ==>
      && !s.threads[t].phase.result.ProcessLocal?
      && (s.threads[t].phase.result.Salted? ==>
            Current(s).Some? && Current(s).value.rum.Dict? && Current(s).value.rum.salt == s.threads[t].phase.result.salt)
  }

  /** A run of any threads and processes whose writers leave non-text salts alone. */
  ghost predicate TypedRun(file: Option<Config>, processes: seq<nat>, steps: seq<Step>, s: State) {
    Path(Initial(file, processes), steps, s) && forall x <- steps :: TypedStep(x)
  }

  lemma SaltAgreement(file: Option<Config>, processes: seq<nat>, steps: seq<Step>, s: State)
    requires Configured(file) && TypedRun(file, processes, steps, s)
    ensures Agreed(s)
  {
    RunInv(file, processes, steps, s);
    FirstVersion(Initial(file, processes), steps, s);
    TypedPath(Initial(file, processes), steps, s);
    forall k | 0 <= k < |s.versions| ensures Configured(s.versions[k]) {
      AlwaysConfigured(s.versions, s.log, k);
    }
    forall t: nat | t < |s.threads| && s.threads[t].phase.Returned? && s.threads[t].phase.result.Salted?
      ensures Current(s).Some? && Current(s).value.rum.Dict? && Current(s).value.rum.salt == s.threads[t].phase.result.salt
    {
      ReturnedSalt(s, t);
    }
    forall t: nat | t < |s.threads| && s.threads[t].phase.Returned? ensures !s.threads[t].phase.result.ProcessLocal? {
      assert PhaseOk(s.versions, s.threads[t].phase);
    }
  }

  lemma ReturnedSalt(s: State, t: nat)
    requires Inv(s) && t < |s.threads| && s.threads[t].phase.Returned? && s.threads[t].phase.result.Salted?
    requires forall k :: 0 <= k < |s.versions| ==> Configured(s.versions[k])
    ensures Current(s).Some? && Current(s).value.rum.Dict? && Current(s).value.rum.salt == s.threads[t].phase.result.salt
  {
    assert PhaseOk(s.versions, s.threads[t].phase);
    var salt := s.threads[t].phase.result.salt;
    var k :| 0 <= k < |s.versions| && s.versions[k].Some? && HasSalt(s.versions[k].value) && s.versions[k].value.rum.salt == salt;
    assert Configured(s.versions[k]);
    SaltNeverChanges(s.versions, s.log, k, |s.versions| - 1, salt.text);
  }

  // ---- Runs that disagree -------------------------------------------------------------------

  lemma {:induction false} PathConcat(a: State, xs: seq<Step>, b: State, ys: seq<Step>, c: State)
    requires Path(a, xs, b) && Path(b, ys, c)
    ensures Path(a, xs + ys, c)
    decreases |xs|
  {
    if xs == [] {
      assert xs + ys == ys;
    } else {
      PathConcat(Next(a, xs[0]), xs[1..], b, ys, c);
      assert (xs + ys)[1..] == xs[1..] + ys;
    }
  }

  lemma OneStep(a: State, x: Step)
    requires a.versions != [] && Enabled(a, x)
    ensures Path(a, [x], Next(a, x))
  {
    assert [x][1..] == [] && Path(Next(a, x), [], Next(a, x));
  }

  /** A thread about to look up the modification time of a file its process has not cached reads it in four
      steps and gets its content. */
  lemma FreshLoad(s: State, t: nat, purpose: Purpose, c: Config) returns (steps: seq<Step>, s': State)
    requires s.versions != [] && t < |s.threads| && Current(s) == Some(c) && s.threads[t].process !in s.caches
    requires s.threads[t].phase == Loading(purpose, Now(s), Stat)
    ensures Path(s, steps, s') && forall x <- steps :: TypedStep(x)
    ensures s'.versions == s.versions && s'.lock == s.lock && |s'.threads| == |s.threads|
    ensures s'.threads[t] == s.threads[t].(phase := Deliver(s, purpose, Now(s), Some(c), "m"))
    ensures forall u :: 0 <= u < |s.threads| && u != t ==> s'.threads[u] == s.threads[u]
    ensures s'.caches.Keys == s.caches.Keys + {s.threads[t].process}
  {
    var x := Advance(t, "m");
    var a := Next(s, x);
    assert a.threads[t].phase == Loading(purpose, Now(s), Check(Now(s)));
    var b := Next(a, x);
    assert b.threads[t].phase == Loading(purpose, Now(s), Read(Now(s)));
    var d := Next(b, x);
    assert d.threads[t].phase == Loading(purpose, Now(s), Store(Now(s), c));
    s' := Next(d, x);
    OneStep(s, x);
    OneStep(a, x);
    OneStep(b, x);
    OneStep(d, x);
    PathConcat(s, [x], a, [x], b);
    PathConcat(s, [x] + [x], b, [x], d);
    PathConcat(s, [x] + [x] + [x], d, [x], s');
    steps := [x] + [x] + [x] + [x];
  }

  /** A first call for a salt by a thread of a process that has cached nothing. */
  lemma FirstCall(s: State, t: nat, c: Config) returns (steps: seq<Step>, s': State)
    requires s.versions != [] && t < |s.threads| && Current(s) == Some(c) && s.threads[t].process !in s.caches
    requires s.threads[t].phase.Idle?
    ensures Path(s, steps, s') && forall x <- steps :: TypedStep(x)
    ensures s'.versions == s.versions && s'.lock == s.lock && |s'.threads| == |s.threads|
    ensures s'.threads[t].phase == Deliver(s, Probe("m"), Now(s), Some(c), "m")
    ensures forall u :: 0 <= u < |s.threads| && u != t ==> s'.threads[u] == s.threads[u]
    ensures s'.caches.Keys == s.caches.Keys + {s.threads[t].process}
  {
    var x := StartSalt(t, "m");
    var a := Next(s, x);
    OneStep(s, x);
    var more;
    more, s' := FreshLoad(a, t, Probe("m"), c);
    PathConcat(s, [x], a, more, s');
    steps := [x] + more;
  }

  /** A missing file or an empty object: the first call falls back to its process's own salt. */
  lemma NoSaltToAgreeOn(file: Option<Config>) returns (steps: seq<Step>, s: State)
    requires file.None? || file.value == Config(None, NoRum, map[])
    ensures TypedRun(file, [0], steps, s) && !Agreed(s)
  {
    var init := Initial(file, [0]);
    if file.None? {
      var x, y := StartSalt(0, "m"), Advance(0, "m");
      var a := Next(init, x);
      s := Next(a, y);
      OneStep(init, x);
      OneStep(a, y);
      PathConcat(init, [x], a, [y], s);
      steps := [x] + [y];
      assert s.threads[0].phase.Returned? && s.threads[0].phase.result.ProcessLocal?;
    } else {
      steps, s := FirstCall(init, 0, file.value);
      assert s.threads[0].phase.Returned? && s.threads[0].phase.result.ProcessLocal?;
    }
  }

  /** A save by an idle thread of a process that has cached nothing, up to its write. */
  lemma SaveNow(s: State, t: nat, c: Config, wanted: Config) returns (steps: seq<Step>, s': State)
    requires s.versions != [] && t < |s.threads| && Current(s) == Some(c) && s.threads[t].process !in s.caches
    requires s.threads[t].phase.Idle? && s.lock == None && Typed(wanted)
    ensures Path(s, steps, s') && forall x <- steps :: TypedStep(x)
    ensures s'.versions == s.versions + [Some(Commit(Save(wanted), Some(c), "m"))] && |s'.threads| == |s.threads|
    ensures forall u :: 0 <= u < |s.threads| && u != t ==> s'.threads[u] == s.threads[u]
  {
    var x, y := StartJob(t, Save(wanted)), Advance(t, "m");
    var a := Next(s, x);
    var b := Next(a, y);
    assert b.threads[t].phase == Loading(ForSalt(Save(wanted), wanted), Now(s), Forgetting);
    var d := Next(b, y);
    assert d.threads[t].phase == Loading(ForSalt(Save(wanted), wanted), Now(s), Stat);
    OneStep(s, x);
    OneStep(a, y);
    OneStep(b, y);
    PathConcat(s, [x], a, [y], b);
    PathConcat(s, [x] + [y], b, [y], d);
    var more, e := FreshLoad(d, t, ForSalt(Save(wanted), wanted), c);
    PathConcat(s, [x] + [y] + [y], d, more, e);
    assert e.threads[t].phase == Writing(Save(wanted), Commit(Save(wanted), Some(c), "m"), "m");
    s' := Next(e, y);
    OneStep(e, y);
    PathConcat(s, [x] + [y] + [y] + more, e, [y], s');
    steps := [x] + [y] + [y] + more + [y];
  }

  /** A salt that is not text: one call hands it out, and another process's save then replaces it. */
  lemma NonTextReplaced(c: Config) returns (steps: seq<Step>, s: State)
    requires !Typed(c)
    ensures TypedRun(Some(c), [0, 1], steps, s) && !Agreed(s)
  {
    var init := Initial(Some(c), [0, 1]);
    var first, a := FirstCall(init, 0, c);
    assert a.threads[0].phase == Returned(0, Salted(c.rum.salt));
    var wanted := Config(Some("t"), Dict(Salt("x"), ""), map[]);
    var more;
    more, s := SaveNow(a, 1, c, wanted);
    PathConcat(init, first, a, more, s);
    steps := first + more;
    assert s.threads[0] == a.threads[0];
    assert Current(s).value.rum.salt == Salt("x");
  }

  /** Agreement holds over all runs exactly for a configured service: one whose file exists, is not the empty
      object, and holds no salt that is not text. */
  lemma SaltAgreementIff(file: Option<Config>)
    ensures (forall processes, steps, s :: TypedRun(file, processes, steps, s) ==> Agreed(s)) <==> Configured(file)
  {
    if Configured(file) {
      forall processes, steps, s | TypedRun(file, processes, steps, s) ensures Agreed(s) {
        SaltAgreement(file, processes, steps, s);
      }
    } else if file.None? || file.value == Config(None, NoRum, map[]) {
      var steps, s := NoSaltToAgreeOn(file);
      assert TypedRun(file, [0], steps, s) && !Agreed(s);
    } else {
      var steps, s := NonTextReplaced(file.value);
      assert TypedRun(file, [0, 1], steps, s) && !Agreed(s);
    }
  }
}
