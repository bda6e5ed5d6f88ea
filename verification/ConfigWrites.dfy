/** What callers of the configuration store can rely on over whole runs: every write that was acknowledged is in the file's
    history, and edits of the same file add up (backend/config.py). */
module ConfigWrites {
  import opened ConfigStore
  import opened ConfigRuns
  import opened Wrappers

  // ---- Edits add up -------------------------------------------------------------------------

  /** A mutator that edits the other fields by `g`, whatever the salt and the creation time. */
  ghost predicate Edits(job: Job, g: map<string, string> -> map<string, string>) {
    job.Mutate? && forall c :: job.f(c).others == g(c.others)
  }

  /** One edit after another. */
  function Fold(others: map<string, string>, edits: seq<map<string, string> -> map<string, string>>): map<string, string> {
    if edits == [] then others else edits[|edits| - 1](Fold(others, edits[..|edits| - 1]))
  }

  lemma {:induction false} ReplayFolds(file: Config, log: seq<(Job, string)>, edits: seq<map<string, string> -> map<string, string>>)
    requires |edits| == |log| && forall k :: 0 <= k < |log| ==> Edits(log[k].0, edits[k])
    ensures Replay(Some(file), log).Some? && Replay(Some(file), log).value.others == Fold(file.others, edits)
    decreases |log|
  {
    if log != [] {
      var n := |log| - 1;
      ReplayFolds(file, log[..n], edits[..n]);
      assert Edits(log[n].0, edits[n]);
    }
  }

  /** After any run whose committed jobs were such mutators, of any threads and processes, the other fields are the edits
      applied one after another in the order of the commits: none is lost and none is applied twice. */
  lemma EditsAddUp(file: Config, processes: seq<nat>, steps: seq<Step>, s: State, edits: seq<map<string, string> -> map<string, string>>)
    requires Path(Initial(Some(file), processes), steps, s)
    requires |edits| == |s.log| && forall k :: 0 <= k < |s.log| ==> Edits(s.log[k].0, edits[k])
    ensures s.versions != [] && Current(s).Some? && Current(s).value.others == Fold(file.others, edits)
  {
    NoLostUpdate(Some(file), processes, steps, s);
    ReplayFolds(file, s.log, edits);
  }

  // ---- One job from start to end ------------------------------------------------------------

  /** After `n` earlier commits the job was committed, and then the file was `content`. */
  ghost predicate Committed(s: State, n: nat, job: Job, content: Config) {
    exists k :: n <= k < |s.log| && k + 1 < |s.versions| && s.log[k].0 == job && s.versions[k + 1] == Some(content)
  }

  /** There was no file at some moment since. */
  ghost predicate Missing(s: State, n: nat) { exists k :: n <= k < |s.versions| && s.versions[k].None? }

  ghost predicate Outcome(s: State, n: nat, job: Job, result: Result) {
    match result
    case Saved(content) => Committed(s, n, job, content)
    case Unconfigured => job.Mutate? && Missing(s, n)
    case _ => false
  }

  /** Where the thread of a job is, and what it knows. */
  ghost predicate Working(s: State, t: nat, job: Job, n: nat) {
    && t < |s.threads| && n <= |s.log| && |s.versions| == |s.log| + 1 && !job.Adopt?
    && match s.threads[t].phase
       case Idle => true
       case Waiting(j) => j == job
       case Loading(ForMutation(j), since, _) => j == job && job.Mutate? && n <= since
       case Loading(ForSalt(j, _), _, _) => j == job
       case Writing(j, _, _) => j == job
       case Dropping(j, content) => j == job && Committed(s, n, job, content)
       case Unlocking(j, result) => j == job && Outcome(s, n, job, result)
       case Returned(_, result) => Outcome(s, n, job, result)
       case _ => false
  }

  /** The history only grows. */
  ghost predicate Later(s: State, s': State) { s.log <= s'.log && s.versions <= s'.versions }

  lemma OutcomeStays(s: State, s': State, n: nat, job: Job, result: Result)
    requires Outcome(s, n, job, result) && Later(s, s')
    ensures Outcome(s', n, job, result)
  {
    match result
    case Saved(content) =>
      var k :| n <= k < |s.log| && k + 1 < |s.versions| && s.log[k].0 == job && s.versions[k + 1] == Some(content);
      assert s'.log[k] == s.log[k] && s'.versions[k + 1] == s.versions[k + 1];
    case Unconfigured =>
      var k :| n <= k < |s.versions| && s.versions[k].None?;
      assert s'.versions[k] == s.versions[k];
  }

  lemma StepLater(s: State, step: Step)
    requires s.versions != [] && Enabled(s, step)
    ensures Later(s, Next(s, step)) && |Next(s, step).versions| - |Next(s, step).log| == |s.versions| - |s.log|
  {
  }

  /** Another thread's step. */
  lemma OtherStep(s: State, step: Step, t: nat, job: Job, n: nat)
    requires s.versions != [] && Enabled(s, step) && Working(s, t, job, n) && (step.Evict? || step.t != t)
    ensures Working(Next(s, step), t, job, n)
  {
    StepLater(s, step);
    var s' := Next(s, step);
    assert s'.threads[t] == s.threads[t];
    match s.threads[t].phase
    case Dropping(_, content) => OutcomeStays(s, s', n, job, Saved(content));
    case Unlocking(_, result) => OutcomeStays(s, s', n, job, result);
    case Returned(_, result) => OutcomeStays(s, s', n, job, result);
    case _ =>
  }

  /** The thread's own step. */
  lemma OwnStep(s: State, t: nat, mint: string, job: Job, n: nat)
    requires s.versions != [] && Enabled(s, Advance(t, mint)) && Working(s, t, job, n)
    ensures Working(Next(s, Advance(t, mint)), t, job, n)
  {
    var s' := Next(s, Advance(t, mint));
    StepLater(s, Advance(t, mint));
    match s.threads[t].phase
    case Loading(_, _, _) => OwnLoad(s, t, mint, job, n);
    case Writing(_, content, m) =>
      assert s'.log[|s.log|] == (job, m) && s'.versions[|s.log| + 1] == Some(content);
    case Dropping(_, content) => OutcomeStays(s, s', n, job, Saved(content));
    case Unlocking(_, result) => OutcomeStays(s, s', n, job, result);
    case _ =>
  }

  lemma OwnLoad(s: State, t: nat, mint: string, job: Job, n: nat)
    requires s.versions != [] && Enabled(s, Advance(t, mint)) && Working(s, t, job, n) && s.threads[t].phase.Loading?
    ensures Working(AdvanceLoad(s, t, mint), t, job, n)
  {
    var Loading(purpose, since, stage) := s.threads[t].phase;
    if purpose.ForMutation? && stage.Stat? && Current(s).None? {
      assert s.versions[|s.versions| - 1].None?;
      assert Missing(AdvanceLoad(s, t, mint), n);
    }
  }

  lemma {:induction false} WorkingPath(s: State, steps: seq<Step>, s': State, t: nat, job: Job, n: nat)
    requires s.versions != [] && Path(s, steps, s') && Working(s, t, job, n)
    requires forall x <- steps :: !StartedBy(x, t)
    ensures Working(s', t, job, n)
    decreases |steps|
  {
    if steps != [] {
      assert steps[0] in steps;
      StepLater(s, steps[0]);
      if steps[0].Evict? || steps[0].t != t {
        OtherStep(s, steps[0], t, job, n);
      } else if steps[0].Advance? {
        OwnStep(s, t, steps[0].mint, job, n);
      }
      WorkingPath(Next(s, steps[0]), steps[1..], s', t, job, n);
    }
  }

  /** A job followed from its start through any run to its return. If it was acknowledged, it was committed once it had
      started, applied to the version just before, and what the caller got is what the file then was; if it found no
      configuration, it is a mutation and the file was missing at some moment since it started. */
  lemma AcknowledgedIsWritten(file: Option<Config>, processes: seq<nat>, before: seq<Step>, s: State, t: nat, job: Job,
                              after: seq<Step>, s': State)
    requires Path(Initial(file, processes), before, s) && s.versions != [] && Enabled(s, StartJob(t, job))
    requires Path(Next(s, StartJob(t, job)), after, s') && forall x <- after :: !StartedBy(x, t)
    requires t < |s'.threads| && s'.threads[t].phase.Returned?
    ensures var result := s'.threads[t].phase.result;
            || (result.Saved?
                && exists k :: |s.log| <= k < |s'.log| && k + 1 < |s'.versions| && s'.log[k].0 == job
                               && (job.Save? || s'.versions[k].Some?)
                               && s'.versions[k + 1] == Some(result.config) == Some(StoredBy(job, s'.versions[k], s'.log[k].1)))
            || (result.Unconfigured? && job.Mutate? && exists k :: |s.versions| - 1 <= k < |s'.versions| && s'.versions[k].None?)
  {
    RunInv(file, processes, before, s);
    StepInv(s, StartJob(t, job));
    PathInv(Next(s, StartJob(t, job)), after, s');
    WorkingPath(Next(s, StartJob(t, job)), after, s', t, job, |s.log|);
    var result := s'.threads[t].phase.result;
    if result.Saved? {
      var k :| |s.log| <= k < |s'.log| && k + 1 < |s'.versions| && s'.log[k].0 == job && s'.versions[k + 1] == Some(result.config);
      CommitStores(job, s'.versions[k], s'.log[k].1);
    }
  }

  // ---- One call for the salt ----------------------------------------------------------------

  /** Where the thread of a call for the salt is. */
  ghost predicate Salting(s: State, t: nat) {
    t < |s.threads| &&
    match s.threads[t].phase
    case Idle => true
    case Loading(Probe(_), _, _) => true
    case Loading(ForMutation(job), _, _) => job.Adopt?
    case Loading(ForSalt(job, _), _, _) => job.Adopt?
    case Waiting(job) => job.Adopt?
    case Writing(job, _, _) => job.Adopt?
    case Dropping(job, _) => job.Adopt?
    case Unlocking(job, result) => job.Adopt? && (result.Salted? || result.Unconfigured?)
    case Returned(_, result) => result.Salted? || result.ProcessLocal?
    case _ => false
  }

  lemma SaltingStep(s: State, step: Step, t: nat)
    requires Inv(s) && Enabled(s, step) && Salting(s, t) && !StartedBy(step, t)
    ensures Salting(Next(s, step), t)
  {
    if step.Evict? || step.t != t {
      assert Next(s, step).threads[t] == s.threads[t];
    } else if step.Advance? {
      SaltingOwn(s, t, step.mint);
    }
  }

  lemma SaltingOwn(s: State, t: nat, mint: string)
    requires Inv(s) && Enabled(s, Advance(t, mint)) && Salting(s, t)
    ensures Salting(AdvanceThread(s, t, mint), t)
  {
    assert PhaseOk(s.versions, s.threads[t].phase);
    if s.threads[t].phase.Loading? {
      SaltingLoad(s, t, mint);
    }
  }

  lemma SaltingLoad(s: State, t: nat, mint: string)
    requires s.versions != [] && Salting(s, t) && t < |s.threads| && s.threads[t].phase.Loading?
    ensures Salting(AdvanceLoad(s, t, mint), t)
  {
  }

  lemma {:induction false} SaltingPath(s: State, steps: seq<Step>, s': State, t: nat)
    requires Inv(s) && Path(s, steps, s') && Salting(s, t)
    requires forall x <- steps :: !StartedBy(x, t)
    ensures Salting(s', t)
    decreases |steps|
  {
    if steps != [] {
      assert steps[0] in steps;
      SaltingStep(s, steps[0], t);
      StepInv(s, steps[0]);
      SaltingPath(Next(s, steps[0]), steps[1..], s', t);
    }
  }

  /** A call for the salt, followed from its start through any run to its return, returns a salt or falls back to that of
      its process; for a configured service, whose writers introduce no salt that is not text, it returns the one the
      file then holds. */
  lemma SaltCallReturns(file: Option<Config>, processes: seq<nat>, before: seq<Step>, s: State, t: nat, mint: string,
                        after: seq<Step>, s': State)
    requires Path(Initial(file, processes), before, s) && s.versions != [] && Enabled(s, StartSalt(t, mint))
    requires Path(Next(s, StartSalt(t, mint)), after, s') && forall x <- after :: !StartedBy(x, t)
    requires t < |s'.threads| && s'.threads[t].phase.Returned?
    ensures s'.threads[t].phase.result.Salted? || s'.threads[t].phase.result.ProcessLocal?
    ensures Configured(file) && (forall x <- before :: TypedStep(x)) && (forall x <- after :: TypedStep(x)) ==>
              && s'.threads[t].phase.result.Salted? && s'.versions != [] && Current(s').Some? && Current(s').value.rum.Dict?
              && Current(s').value.rum.salt == s'.threads[t].phase.result.salt
  {
    RunInv(file, processes, before, s);
    StepInv(s, StartSalt(t, mint));
    SaltingPath(Next(s, StartSalt(t, mint)), after, s', t);
    if Configured(file) && (forall x <- before :: TypedStep(x)) && (forall x <- after :: TypedStep(x)) {
      var one := [StartSalt(t, mint)];
      OneStep(s, StartSalt(t, mint));
      PathConcat(Initial(file, processes), before, s, one, Next(s, StartSalt(t, mint)));
      PathConcat(Initial(file, processes), before + one, Next(s, StartSalt(t, mint)), after, s');
      SaltAgreement(file, processes, before + one + after, s');
    }
  }
}
