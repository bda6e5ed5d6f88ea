/** One service's configuration file as backend/config.py keeps it, and the pseudonym salt stored in
    it (backend/core/duckdb.py, get_or_generate_cid_salt). */
module ConfigStore {
  import opened Wrappers

  /** `rum["cid_salt"]`. `Other` is a value that is neither text nor falsy. */
  datatype SaltField = NoSalt | Salt(text: string) | Other(token: nat)

  /** `cfg["rum"]`; `NotDict` when the key holds something that is not an object. */
  datatype Rum = NoRum | NotDict | Dict(salt: SaltField, rest: string)

  /** A parsed configuration: the fields the store itself looks at, and everything else. */
  datatype Config = Config(createdAt: Option<string>, rum: Rum, others: map<string, string>)

  /** Python's `bool(cfg)` is false exactly for the empty object. */
  predicate IsEmpty(c: Config) { c.createdAt.None? && c.rum.NoRum? && c.others == map[] }

  predicate Truthy(f: SaltField) { f.Other? || (f.Salt? && f.text != "") }

  predicate HasSalt(c: Config) { c.rum.Dict? && Truthy(c.rum.salt) }

  /** `_disk_cid_salt`: only non-empty text counts as a persisted salt. */
  function DiskSalt(file: Option<Config>): Option<string> {
    match file
    case Some(Config(_, Dict(Salt(text), _), _)) => if text != "" then Some(text) else None
    case _ => None
  }

  function WithSalt(r: Rum, salt: string): Rum {
    if r.Dict? then r.(salt := Salt(salt)) else Dict(Salt(salt), "")
  }

  /** The fix-ups of `_save_config_unlocked`: a creation time, the persisted salt re-adopted, or a
      minted one when there is none anywhere. */
  function FixUp(existing: Option<string>, c: Config, mint: string): Config {
    var dated := if c.createdAt.None? || c.createdAt == Some("") then c.(createdAt := Some(mint)) else c;
    match existing
    case Some(salt) => dated.(rum := WithSalt(c.rum, salt))
    case None => if HasSalt(c) then dated else dated.(rum := WithSalt(c.rum, mint))
  }

  /** `_set` inside get_or_generate_cid_salt. */
  function SetSalt(c: Config, mint: string): Config {
    if HasSalt(c) then c else c.(rum := WithSalt(c.rum, mint))
  }

  /** A writer's request. */
  datatype Job =
    | Save(config: Config)                 // save_config
    | Mutate(f: Config -> Config)          // mutate_config
    | Adopt(mint: string)                  // the mutation made by get_or_generate_cid_salt

  /** What a job wants written, before the fix-ups. */
  function Wanted(job: Job, file: Option<Config>): Config
    requires job.Save? || file.Some?
  {
    match job
    case Save(c) => c
    case Mutate(f) => f(file.value)
    case Adopt(mint) => SetSalt(file.value, mint)
  }

  /** The file after a job has committed. */
  function Commit(job: Job, file: Option<Config>, mint: string): Config
    requires job.Save? || file.Some?
  {
    FixUp(DiskSalt(file), Wanted(job, file), mint)
  }

  /** The salt is write-once: no commit changes a persisted salt, whatever the caller hands in; and every commit leaves one. */
  lemma CommitKeepsSalt(job: Job, file: Option<Config>, mint: string)
    requires job.Save? || file.Some?
    ensures forall salt :: file.Some? && TextSalt(file.value, salt) ==> TextSalt(Commit(job, file, mint), salt)
    ensures DiskSalt(file).Some? ==> DiskSalt(Some(Commit(job, file, mint))) == DiskSalt(file)
    ensures mint != "" ==> GivesSalt(Commit(job, file, mint))
    ensures mint != "" ==> HasSalt(Commit(job, file, mint)) && !IsEmpty(Commit(job, file, mint))
  {}

  // ---- What a write stores ------------------------------------------------------------------

  /** What a job was to store, in its own terms: the configuration handed in, the file as the mutator leaves it, or the
      file as it is. */
  function Asked(job: Job, file: Option<Config>): Config
    requires job.Save? || file.Some?
  {
    if job.Save? then job.config else if job.Mutate? then job.f(file.value) else file.value
  }

  /** A salt that is text and not empty. */
  predicate TextSalt(c: Config, salt: string) { c.rum.Dict? && c.rum.salt == Salt(salt) && salt != "" }

  /** Any salt but none or the empty one counts as given. */
  predicate GivesSalt(c: Config) { c.rum.Dict? && c.rum.salt != NoSalt && c.rum.salt != Salt("") }

  /** The salt after a write: the persisted text if there is one, or else what the job gives, or else a new one. */
  function SaltAfter(job: Job, file: Option<Config>, mint: string): SaltField
    requires job.Save? || file.Some?
  {
    if file.Some? && file.value.rum.Dict? && file.value.rum.salt.Salt? && file.value.rum.salt.text != "" then file.value.rum.salt
    else if GivesSalt(Asked(job, file)) then Asked(job, file).rum.salt
    else Salt(if job.Adopt? && job.mint != "" then job.mint else mint)
  }

  /** The file after a write: all that was asked for, dated if it was not, and with that salt. */
  function StoredBy(job: Job, file: Option<Config>, mint: string): Config
    requires job.Save? || file.Some?
  {
    var asked := Asked(job, file);
    Config(if asked.createdAt.Some? && asked.createdAt.value != "" then asked.createdAt else Some(mint),
           Dict(SaltAfter(job, file, mint), if asked.rum.Dict? then asked.rum.rest else ""),
           asked.others)
  }

  lemma CommitStores(job: Job, file: Option<Config>, mint: string)
    requires job.Save? || file.Some?
    ensures Commit(job, file, mint) == StoredBy(job, file, mint)
  {
  }

  /** Said of each field: a write keeps everything the job asked for but the salt and an absent creation time. */
  lemma CommitKeepsRest(job: Job, file: Option<Config>, mint: string)
    requires job.Save? || file.Some?
    ensures var c := Commit(job, file, mint);
            && (job.Save? ==> c.others == job.config.others)
            && (job.Mutate? ==> c.others == job.f(file.value).others)
            && (job.Adopt? ==> c.others == file.value.others)
            && (job.Save? && job.config.rum.Dict? ==> c.rum.rest == job.config.rum.rest)
            && (job.Mutate? && job.f(file.value).rum.Dict? ==> c.rum.rest == job.f(file.value).rum.rest)
            && (job.Adopt? && file.value.rum.Dict? ==> c.rum.rest == file.value.rum.rest)
            && (job.Save? && job.config.createdAt.Some? && job.config.createdAt.value != "" ==> c.createdAt == job.config.createdAt)
            && (job.Mutate? && job.f(file.value).createdAt.Some? && job.f(file.value).createdAt.value != "" ==>
                  c.createdAt == job.f(file.value).createdAt)
            && (job.Adopt? && file.value.createdAt.Some? && file.value.createdAt.value != "" ==> c.createdAt == file.value.createdAt)
            && c.createdAt.Some? && c.rum.Dict?
  {
    CommitStores(job, file, mint);
  }

  // ---- The re-entrant lock of one thread ----------------------------------------------------

  type ServiceId = string

  /** Per-thread bookkeeping of `config_lock`: nesting depths, and the file locks actually held. */
  class ThreadLocks {
    var held: map<ServiceId, nat>
    var fileLocks: set<ServiceId>

    ghost predicate Valid()
      reads this
    {
      forall sid :: sid in fileLocks <==> sid in held && held[sid] > 0
    }

    function Depth(sid: ServiceId): nat
      reads this
    {
      if sid in held then held[sid] else 0
    }

    constructor ()
      ensures Valid() && held == map[] && fileLocks == {}
    {
      held, fileLocks := map[], {};
    }

    /** Entering: only the outermost entry takes the file lock. */
    method Enter(sid: ServiceId)
      requires Valid()
      modifies this
      ensures Valid() && Depth(sid) == old(Depth(sid)) + 1
      ensures fileLocks == old(fileLocks) + {sid}
      ensures forall other :: other != sid ==> Depth(other) == old(Depth(other))
    {
      if Depth(sid) > 0 {
        held := held[sid := held[sid] + 1];
      } else {
        fileLocks := fileLocks + {sid};
        held := held[sid := 1];
      }
    }

    /** Leaving: only the exit that matches the outermost entry releases it. */
    method Exit(sid: ServiceId)
      requires Valid() && Depth(sid) > 0
      modifies this
      ensures Valid() && Depth(sid) == old(Depth(sid)) - 1
      ensures fileLocks == if Depth(sid) > 0 then old(fileLocks) else old(fileLocks) - {sid}
      ensures forall other :: other != sid ==> Depth(other) == old(Depth(other))
    {
      if held[sid] > 1 {
        held := held[sid := held[sid] - 1];
      } else {
        held := held - {sid};
        fileLocks := fileLocks - {sid};
      }
    }
  }
}
