/** The chunk loop of `ingest_rum_logs` in backend/core/rum_ingest.py: download, parse, quarantine, write two
    buffers, delete the raw objects, with a fault possible at every step. */
module RumIngest {
  import opened Beacons
  import opened Text
  import opened Quarantine
  import opened Wrappers

  // ---- Whether raw objects may be deleted ---------------------------------------------------

  /** The settings of `provisioning.cron_sync` that matter; `None` where the configuration is silent. */
  datatype CronSync = CronSync(sharedSource: Option<bool>, deleteAfter: Option<bool>)

  /** `resolve_raw_delete_after`. */
  function ResolveDelete(cfg: CronSync, requested: Option<bool>): (r: bool)
    ensures cfg.sharedSource == Some(true) ==> !r
    ensures r ==> requested != Some(false) && (requested == None ==> cfg.deleteAfter != Some(false))
    ensures !r ==> ((cfg.sharedSource.Some? && cfg.sharedSource.value)
                   || (requested.Some? && !requested.value)
                   || (requested.None? && cfg.deleteAfter.Some? && !cfg.deleteAfter.value))
  {
    if cfg.sharedSource.Some? && cfg.sharedSource.value then false
    else if requested.Some? then requested.value
    else if cfg.deleteAfter.Some? then cfg.deleteAfter.value
    else true
  }

  // ---- What happened ------------------------------------------------------------------------

  datatype Table = VitalsTable | ErrorsTable

  /** One file of a buffer and the number of rows it contributed. */
  datatype Batch = Batch(path: string, count: nat)

  datatype Event =
    | Parsed(path: string)
    | Captured(items: seq<Item>)
    | Saved(table: Table, batch: seq<Batch>, rows: seq<Row>)
    | Remove(paths: seq<string>)

  /** The raw objects: the lines of each, or `None` if it cannot be read. */
  type Content = string -> Option<seq<Bytes>>

  function Lines(content: Content, path: string): seq<Bytes> {
    if content(path).Some? then content(path).value else []
  }

  function RowsOf(c: Codec, content: Content, table: Table, path: string): seq<Row> {
    var lines := Lines(content, path);
    match table
    case VitalsTable => VitalRows(c, lines)
    case ErrorsTable => ErrorRows(c, lines)
  }

  function Evidences(c: Codec, content: Content, path: string): seq<Record> {
    Faults(c, Lines(content, path))
  }

  /** Rows of a buffer that precede its `k`-th file. */
  function Start(batch: seq<Batch>, k: nat): nat
    requires k <= |batch|
    decreases k
  {
    if k == 0 then 0 else Start(batch, k - 1) + batch[k - 1].count
  }

  /** The part of a buffer that its `k`-th file owns is that file's rows. */
  predicate Owns(c: Codec, content: Content, table: Table, batch: seq<Batch>, rows: seq<Row>, k: nat)
    requires k < |batch|
  {
    var want := RowsOf(c, content, table, batch[k].path);
    && batch[k].count == |want|
    && Start(batch, k) + |want| <= |rows|
    && rows[Start(batch, k)..Start(batch, k) + |want|] == want
  }

  ghost predicate Buffered(c: Codec, content: Content, table: Table, h: seq<Event>, path: string) {
    exists i, k :: 0 <= i < |h| && h[i].Saved? && h[i].table == table && 0 <= k < |h[i].batch|
      && h[i].batch[k].path == path && Owns(c, content, table, h[i].batch, h[i].rows, k)
  }

  predicate Evident(c: Codec, content: Content, h: seq<Event>, prefix: string, path: string) {
    Evidences(c, content, path) == [] || Captured(Proofs(c, Lines(content, path), RemovePrefix(path, prefix))) in h
  }

  /** Nothing of an object would be lost with it: it was parsed, its rows are in a vitals and in an
      errors buffer, and each of its malformed lines was captured. */
  ghost predicate Secured(c: Codec, content: Content, h: seq<Event>, prefix: string, path: string) {
    && content(path).Some? && Parsed(path) in h
    && Buffered(c, content, VitalsTable, h, path)
    && Buffered(c, content, ErrorsTable, h, path)
    && Evident(c, content, h, prefix, path)
  }

  /** At the moment of every removal, all that is removed is secured by what happened before. */
  ghost predicate NoLoss(c: Codec, content: Content, h: seq<Event>, prefix: string) {
    forall i, p :: 0 <= i < |h| && h[i].Remove? && p in h[i].paths ==> Secured(c, content, h[..i], prefix, p)
  }

  lemma BufferedLater(c: Codec, content: Content, table: Table, h: seq<Event>, more: seq<Event>, path: string)
    requires Buffered(c, content, table, h, path)
    ensures Buffered(c, content, table, h + more, path)
  {
    var i, k :| 0 <= i < |h| && h[i].Saved? && h[i].table == table && 0 <= k < |h[i].batch|
                && h[i].batch[k].path == path && Owns(c, content, table, h[i].batch, h[i].rows, k);
    assert (h + more)[i] == h[i];
  }

  /** What is true at the end of a run is true at every earlier point of it. */
  lemma NoLossEarlier(c: Codec, content: Content, h: seq<Event>, prefix: string, n: nat)
    requires NoLoss(c, content, h, prefix) && n <= |h|
    ensures NoLoss(c, content, h[..n], prefix)
  {
    forall i, p | 0 <= i < n && h[..n][i].Remove? && p in h[..n][i].paths ensures Secured(c, content, h[..n][..i], prefix, p) {
      assert h[..n][i] == h[i] && h[..n][..i] == h[..i];
    }
  }

  lemma NoLossQuiet(c: Codec, content: Content, h: seq<Event>, e: Event, prefix: string)
    requires NoLoss(c, content, h, prefix)
    requires e.Remove? ==> forall p :: p in e.paths ==> Secured(c, content, h, prefix, p)
    ensures NoLoss(c, content, h + [e], prefix)
  {
    var now := h + [e];
    forall i, p | 0 <= i < |now| && now[i].Remove? && p in now[i].paths ensures Secured(c, content, now[..i], prefix, p) {
      if i < |h| {
        assert now[i] == h[i] && now[..i] == h[..i];
      } else {
        assert now[..i] == h;
      }
    }
  }

  // ---- Filling a buffer ---------------------------------------------------------------------

  /** A buffer under construction: every file owns its part, and there is nothing else. */
  predicate Filled(c: Codec, content: Content, table: Table, batch: seq<Batch>, rows: seq<Row>) {
    && Start(batch, |batch|) == |rows|
    && forall k :: 0 <= k < |batch| ==> Owns(c, content, table, batch, rows, k)
  }

  lemma {:induction false} StartSame(a: seq<Batch>, b: seq<Batch>, k: nat)
    requires k <= |a| && a <= b
    ensures Start(a, k) == Start(b, k)
    decreases k
  {
    if k > 0 {
      StartSame(a, b, k - 1);
    }
  }

  lemma OwnsLonger(c: Codec, content: Content, table: Table, batch: seq<Batch>, rows: seq<Row>, x: Batch, more: seq<Row>, k: nat)
    requires k < |batch| && Owns(c, content, table, batch, rows, k)
    ensures Owns(c, content, table, batch + [x], rows + more, k)
  {
    StartSame(batch, batch + [x], k);
    var n := |RowsOf(c, content, table, batch[k].path)|;
    assert (rows + more)[Start(batch, k)..Start(batch, k) + n] == rows[Start(batch, k)..Start(batch, k) + n];
  }

  lemma FillOne(c: Codec, content: Content, table: Table, batch: seq<Batch>, rows: seq<Row>, path: string)
    requires Filled(c, content, table, batch, rows)
    ensures var more := RowsOf(c, content, table, path);
            Filled(c, content, table, batch + [Batch(path, |more|)], rows + more)
  {
    var more := RowsOf(c, content, table, path);
    var now := batch + [Batch(path, |more|)];
    StartSame(batch, now, |batch|);
    forall k | 0 <= k < |now| ensures Owns(c, content, table, now, rows + more, k) {
      if k < |batch| {
        OwnsLonger(c, content, table, batch, rows, Batch(path, |more|), more, k);
      } else {
        assert (rows + more)[|rows|..|rows| + |more|] == more;
      }
    }
  }

  // ---- One object ---------------------------------------------------------------------------

  /** Everything the run touches. The functions decide, for every attempt, whether it goes well. */
  class World {
    const c: Codec
    const content: Content
    const prefix: string
    const rawPrefix: string
    const downloads: (nat, string) -> bool
    const dropped: nat -> bool
    const writeFails: nat -> bool
    const pre: Precollected
    const evidence: Evidence
    ghost var history: seq<Event>
    var writes: nat
    var nextId: nat

    ghost predicate Valid() reads this, pre, evidence {
      && pre.Valid() && evidence.Valid()
      && forall e :: e in pre.entries ==> e.id < nextId
    }

    constructor (c: Codec, content: Content, prefix: string, rawPrefix: string, downloads: (nat, string) -> bool,
                 dropped: nat -> bool, writeFails: nat -> bool, faults: nat -> bool, late: nat -> bool)
      ensures Valid() && fresh(pre) && fresh(evidence) && history == [] && writes == 0
      ensures this.c == c && this.content == content && this.prefix == prefix && this.rawPrefix == rawPrefix
      ensures this.downloads == downloads && this.dropped == dropped && this.writeFails == writeFails
      ensures evidence.faults == faults && evidence.late == late
    {
      this.c, this.content, this.prefix, this.rawPrefix := c, content, prefix, rawPrefix;
      this.downloads, this.dropped, this.writeFails := downloads, dropped, writeFails;
      pre := new Precollected();
      evidence := new Evidence(faults, late);
      history, writes, nextId := [], 0, 0;
    }
  }

  datatype Taken = Taken(vitals: seq<Row>, errors: seq<Row>, captureFailed: bool)

  /** The evidence set aside for a file may be gone again by the time it is asked for. */
  method SetEvidenceAside(w: World, path: string, records: seq<Record>) returns (id: nat)
    requires w.Valid()
    modifies w`nextId, w.pre
    ensures w.Valid()
    ensures forall e :: e in w.pre.entries && e.id == id ==> e.records == records
  {
    id := w.nextId;
    w.pre.Store(id, path, records);
    w.nextId := id + 1;
    if w.dropped(id) {
      ForgetMembers(w.pre.entries, id);
      var _ := w.pre.Pop(id);
    }
  }

  /** Nothing stands in the way of capturing a file's evidence: the store has no faults, the file is one of the raw ones
      and no sound line of it reads like a faulty one. */
  ghost predicate Smooth(faults: nat -> bool, rawPrefix: string, key: string, c: Codec, lines: seq<Bytes>) {
    (forall n :: !faults(n)) && rawPrefix <= key && !Ambiguous(c, lines)
  }

  /** `quarantine_fn` with its handler: an exception counts every malformed line as a failure. */
  method Quarantined(w: World, path: string, lines: seq<Bytes>, corrupt: seq<Complaint>, id: nat) returns (failures: nat)
    requires w.Valid() && w.content(path) == Some(lines) && corrupt == Complaints(w.c, lines, |lines|)
    requires forall e :: e in w.pre.entries && e.id == id ==> e.records == Records(w.c, lines, |lines|)
    modifies w`history, w.pre, w.evidence
    ensures w.Valid()
    ensures old(w.evidence.log) <= w.evidence.log
    ensures w.history == old(w.history) + [Captured(w.evidence.log[|old(w.evidence.log)|..])]
    ensures failures == 0 && corrupt != [] ==> Evident(w.c, w.content, w.history, w.prefix, path)
    ensures var key := RemovePrefix(path, w.prefix);
            failures == if StartsWith(key, w.rawPrefix) && (SetAside(old(w.pre.entries), id, path) || !Ambiguous(w.c, lines))
                        then |corrupt| - (|w.evidence.log| - |old(w.evidence.log)|) else |corrupt|
    ensures Smooth(w.evidence.faults, w.rawPrefix, RemovePrefix(path, w.prefix), w.c, lines) ==> failures == 0
  {
    var key := RemovePrefix(path, w.prefix);
    ghost var before, at := w.evidence.log, w.evidence.attempts;
    ghost var entries := w.pre.entries;
    var outcome := QuarantineLines(w.pre, w.evidence, w.c, id, corrupt, path, lines, w.rawPrefix, key);
    ForgetMembers(entries, id);
    failures := if outcome.Raised? then |corrupt| else outcome.failures;
    ghost var records := Records(w.c, lines, |lines|);
    ghost var stored := Stored(w.evidence.faults, at, key, records, |records|);
    w.history := w.history + [Captured(w.evidence.log[|before|..])];
    if Smooth(w.evidence.faults, w.rawPrefix, key, w.c, lines) {
      NoneFail(w.evidence.faults, at, key, records, |records|);
    }
    if failures == 0 && corrupt != [] {
      NoFailureMeansCaptured(w.evidence.faults, at, key, records);
      ItemsAre(w.c, lines, key);
    }
  }

  /** What a chunk has to know about a file before its raw object may go, buffers apart. */
  predicate Prepared(c: Codec, content: Content, h: seq<Event>, prefix: string, path: string) {
    content(path).Some? && Parsed(path) in h && Evident(c, content, h, prefix, path)
  }

  /** A run that went on without removing anything. */
  predicate Quiet(before: seq<Event>, after: seq<Event>) {
    before <= after && forall i :: |before| <= i < |after| ==> !after[i].Remove?
  }

  lemma QuietKeeps(c: Codec, content: Content, before: seq<Event>, after: seq<Event>, prefix: string)
    requires Quiet(before, after)
    ensures forall p :: Prepared(c, content, before, prefix, p) ==> Prepared(c, content, after, prefix, p)
    ensures NoLoss(c, content, before, prefix) ==> NoLoss(c, content, after, prefix)
  {
    forall p | Prepared(c, content, before, prefix, p) ensures Prepared(c, content, after, prefix, p) {
      assert forall e :: e in before ==> e in after;
    }
    if NoLoss(c, content, before, prefix) {
      forall i, p | 0 <= i < |after| && after[i].Remove? && p in after[i].paths ensures Secured(c, content, after[..i], prefix, p) {
        assert i < |before| && after[i] == before[i] && after[..i] == before[..i];
      }
    }
  }

  method Judge(w: World, path: string, lines: seq<Bytes>, corrupt: seq<Complaint>, records: seq<Record>) returns (failures: nat)
    requires w.Valid() && w.content(path) == Some(lines)
    requires corrupt == Complaints(w.c, lines, |lines|) && records == Records(w.c, lines, |lines|)
    modifies w, w.pre, w.evidence
    ensures w.Valid() && w.writes == old(w.writes) && Quiet(old(w.history), w.history)
    ensures failures > 0 ==> records != []
    ensures failures == 0 ==> Evident(w.c, w.content, w.history, w.prefix, path)
    ensures Smooth(w.evidence.faults, w.rawPrefix, RemovePrefix(path, w.prefix), w.c, lines) ==> failures == 0
  {
    OnePerComplaint(w.c, lines, |lines|);
    FileMeans(w.c, lines);
    failures := 0;
    if corrupt != [] {
      var id := SetEvidenceAside(w, path, records);
      failures := Quarantined(w, path, lines, corrupt, id);
    }
  }

  /** A capture can fail only for an object with faulty lines, and only if something stands in the way. */
  ghost predicate Troubled(w: World, path: string) {
    && Faults(w.c, Lines(w.content, path)) != []
    && !Smooth(w.evidence.faults, w.rawPrefix, RemovePrefix(path, w.prefix), w.c, Lines(w.content, path))
  }

  /** Parses one downloaded object and quarantines its malformed lines; `None` if it cannot be read. */
  method Ingest(w: World, path: string) returns (r: Option<Taken>)
    requires w.Valid()
    modifies w, w.pre, w.evidence
    ensures w.Valid() && w.writes == old(w.writes) && Quiet(old(w.history), w.history)
    ensures r.Some? <==> w.content(path).Some?
    ensures r.Some? ==>
              && r.value.vitals == RowsOf(w.c, w.content, VitalsTable, path)
              && r.value.errors == RowsOf(w.c, w.content, ErrorsTable, path)
              && (r.value.captureFailed ==> Troubled(w, path))
              && (!r.value.captureFailed ==> Prepared(w.c, w.content, w.history, w.prefix, path))
  {
    var read := w.content(path);
    if read.None? {
      return None;
    }
    var lines := read.value;
    var vitals, errors, corrupt, records := ParseFile(w.c, lines);
    w.history := w.history + [Parsed(path)];
    assert w.history[|old(w.history)|] == Parsed(path);
    var failures := Judge(w, path, lines, corrupt, records);
    assert w.history[|old(w.history)|] == Parsed(path);
    r := Some(Taken(vitals, errors, failures > 0));
  }

  // ---- One chunk ----------------------------------------------------------------------------

  function Paths(batch: seq<Batch>): set<string> { set b | b in batch :: b.path }

  datatype ChunkState = ChunkState(
    failed: set<string>, captureFailed: set<string>,
    vitals: seq<Batch>, errors: seq<Batch>, vitalsRows: seq<Row>, errorsRows: seq<Row>)
  {
    /** Dealt with: excluded from deletion, or ready for it but for the buffers, which list it. */
    predicate Settled(c: Codec, content: Content, h: seq<Event>, prefix: string, path: string) {
      || path in failed || path in captureFailed
      || (Prepared(c, content, h, prefix, path) && path in Paths(vitals) && path in Paths(errors))
    }

    predicate Consistent(c: Codec, content: Content) {
      Filled(c, content, VitalsTable, vitals, vitalsRows) && Filled(c, content, ErrorsTable, errors, errorsRows)
    }
  }

  function Add(c: Codec, content: Content, s: ChunkState, path: string, captureFailed: bool): ChunkState {
    var v := RowsOf(c, content, VitalsTable, path);
    var e := RowsOf(c, content, ErrorsTable, path);
    ChunkState(s.failed, if captureFailed then s.captureFailed + {path} else s.captureFailed,
             s.vitals + [Batch(path, |v|)], s.errors + [Batch(path, |e|)], s.vitalsRows + v, s.errorsRows + e)
  }

  lemma AddKeeps(c: Codec, content: Content, s: ChunkState, path: string, captureFailed: bool)
    requires s.Consistent(c, content)
    ensures Add(c, content, s, path, captureFailed).Consistent(c, content)
  {
    FillOne(c, content, VitalsTable, s.vitals, s.vitalsRows, path);
    FillOne(c, content, ErrorsTable, s.errors, s.errorsRows, path);
  }

  lemma AddSettles(c: Codec, content: Content, h: seq<Event>, prefix: string, s: ChunkState, path: string, captureFailed: bool)
    requires !captureFailed ==> Prepared(c, content, h, prefix, path)
    ensures var now := Add(c, content, s, path, captureFailed);
            && now.Settled(c, content, h, prefix, path)
            && forall q :: s.Settled(c, content, h, prefix, q) ==> now.Settled(c, content, h, prefix, q)
  {
    var now := Add(c, content, s, path, captureFailed);
    assert now.vitals[|s.vitals|].path == path && now.errors[|s.errors|].path == path;
    assert Paths(s.vitals) <= Paths(now.vitals) && Paths(s.errors) <= Paths(now.errors);
  }

  lemma SettledLater(c: Codec, content: Content, before: seq<Event>, after: seq<Event>, prefix: string, s: ChunkState)
    requires Quiet(before, after)
    ensures forall q :: s.Settled(c, content, before, prefix, q) ==> s.Settled(c, content, after, prefix, q)
  {
    QuietKeeps(c, content, before, after, prefix);
  }

  /** Objects of a chunk that did not arrive or could not be read. */
  function Unread(downloads: (nat, string) -> bool, content: Content, idx: nat, chunk: seq<string>): set<string> {
    set p | p in chunk && !(downloads(idx, p) && content(p).Some?)
  }

  ghost function Troubles(w: World, chunk: seq<string>): set<string> { set p | p in chunk && Troubled(w, p) }

  lemma OneMore(w: World, idx: nat, done: seq<string>, p: string)
    ensures Unread(w.downloads, w.content, idx, done + [p])
         == Unread(w.downloads, w.content, idx, done) + (if w.downloads(idx, p) && w.content(p).Some? then {} else {p})
    ensures Troubles(w, done + [p]) == Troubles(w, done) + (if Troubled(w, p) then {p} else {})
  {
  }

  /** Where a chunk stands after the objects `done`: every one of them is settled, `failed` has gained just
      those that could not be read, and a failed capture was of a malformed one. */
  ghost predicate Reached(w: World, h: seq<Event>, idx: nat, from: ChunkState, s: ChunkState, done: seq<string>) {
    && s.Consistent(w.c, w.content)
    && s.failed == from.failed + Unread(w.downloads, w.content, idx, done)
    && from.captureFailed <= s.captureFailed <= from.captureFailed + Troubles(w, done)
    && forall p :: p in done ==> s.Settled(w.c, w.content, h, w.prefix, p)
  }

  lemma ReachedFailed(w: World, before: seq<Event>, h: seq<Event>, idx: nat, from: ChunkState, s: ChunkState, done: seq<string>, path: string)
    requires Reached(w, before, idx, from, s, done) && Quiet(before, h)
    requires !(w.downloads(idx, path) && w.content(path).Some?)
    ensures Reached(w, h, idx, from, s.(failed := s.failed + {path}), done + [path])
  {
    OneMore(w, idx, done, path);
    SettledLater(w.c, w.content, before, h, w.prefix, s);
  }

  lemma ReachedAdded(w: World, before: seq<Event>, h: seq<Event>, idx: nat, from: ChunkState, s: ChunkState, done: seq<string>,
                     path: string, captureFailed: bool)
    requires Reached(w, before, idx, from, s, done) && Quiet(before, h)
    requires w.downloads(idx, path) && w.content(path).Some?
    requires if captureFailed then Troubled(w, path) else Prepared(w.c, w.content, h, w.prefix, path)
    ensures Reached(w, h, idx, from, Add(w.c, w.content, s, path, captureFailed), done + [path])
  {
    OneMore(w, idx, done, path);
    SettledLater(w.c, w.content, before, h, w.prefix, s);
    AddKeeps(w.c, w.content, s, path, captureFailed);
    AddSettles(w.c, w.content, h, w.prefix, s, path, captureFailed);
  }

  /** One object of a chunk. */
  method Step(w: World, idx: nat, path: string, s: ChunkState, ghost from: ChunkState, ghost done: seq<string>)
      returns (now: ChunkState)
    requires w.Valid() && Reached(w, w.history, idx, from, s, done)
    modifies w, w.pre, w.evidence
    ensures w.Valid() && w.writes == old(w.writes) && Quiet(old(w.history), w.history)
    ensures Reached(w, w.history, idx, from, now, done + [path])
  {
    var taken: Option<Taken> := None;
    if w.downloads(idx, path) {
      taken := Ingest(w, path);
    }
    if taken.None? {
      now := s.(failed := s.failed + {path});
      ReachedFailed(w, old(w.history), w.history, idx, from, s, done, path);
    } else {
      var t := taken.value;
      now := ChunkState(s.failed, if t.captureFailed then s.captureFailed + {path} else s.captureFailed,
                        s.vitals + [Batch(path, |t.vitals|)], s.errors + [Batch(path, |t.errors|)],
                        s.vitalsRows + t.vitals, s.errorsRows + t.errors);
      ReachedAdded(w, old(w.history), w.history, idx, from, s, done, path, t.captureFailed);
    }
  }

  method ReadChunk(w: World, idx: nat, chunk: seq<string>, from: ChunkState) returns (s: ChunkState)
    requires w.Valid() && Reached(w, w.history, idx, from, from, [])
    modifies w, w.pre, w.evidence
    ensures w.Valid() && w.writes == old(w.writes) && Quiet(old(w.history), w.history)
    ensures Reached(w, w.history, idx, from, s, chunk)
  {
    s := from;
    for i := 0 to |chunk|
      invariant w.Valid() && w.writes == old(w.writes) && Quiet(old(w.history), w.history)
      invariant Reached(w, w.history, idx, from, s, chunk[..i])
    {
      s := Step(w, idx, chunk[i], s, from, chunk[..i]);
      assert chunk[..i] + [chunk[i]] == chunk[..i + 1];
    }
    assert chunk[..|chunk|] == chunk;
  }

  /** Writes one buffer, unless no file of the chunk was parsed; a failed write raises. */
  method Save(w: World, table: Table, batch: seq<Batch>, rows: seq<Row>) returns (ok: bool)
    requires w.Valid()
    modifies w
    ensures w.Valid() && w.nextId == old(w.nextId)
    ensures ok == (batch == [] || !w.writeFails(old(w.writes))) && w.writes == old(w.writes) + (if batch == [] then 0 else 1)
    ensures ok ==> w.history == if batch == [] then old(w.history) else old(w.history) + [Saved(table, batch, rows)]
    ensures !ok ==> w.history == old(w.history) && batch != []
  {
    ok := true;
    if batch != [] {
      ok := !w.writeFails(w.writes);
      w.writes := w.writes + 1;
      if ok {
        w.history := w.history + [Saved(table, batch, rows)];
      }
    }
  }

  lemma SavedMeansBuffered(c: Codec, content: Content, table: Table, h: seq<Event>, batch: seq<Batch>, rows: seq<Row>, path: string)
    requires Filled(c, content, table, batch, rows) && path in Paths(batch)
    ensures Buffered(c, content, table, h + [Saved(table, batch, rows)], path)
  {
    var now := h + [Saved(table, batch, rows)];
    var k :| 0 <= k < |batch| && batch[k].path == path;
    assert now[|h|].batch[k].path == path && Owns(c, content, table, now[|h|].batch, now[|h|].rows, k);
  }

  /** The raw objects of a chunk that are asked to be deleted. */
  function Deletable(chunk: seq<string>, prefix: string, excluded: set<string>): seq<string> {
    if chunk == [] then []
    else
      (if StartsWith(chunk[0], prefix) && chunk[0] !in excluded then [chunk[0]] else [])
      + Deletable(chunk[1..], prefix, excluded)
  }

  lemma {:induction false} DeletableMembers(chunk: seq<string>, prefix: string, excluded: set<string>)
    ensures forall p :: p in Deletable(chunk, prefix, excluded) <==> p in chunk && StartsWith(p, prefix) && p !in excluded
  {
    if chunk != [] {
      DeletableMembers(chunk[1..], prefix, excluded);
      assert chunk == [chunk[0]] + chunk[1..];
    }
  }

  lemma BothBuffers(c: Codec, content: Content, h: seq<Event>, prefix: string, s: ChunkState, path: string)
    requires s.Consistent(c, content) && s.Settled(c, content, h, prefix, path)
    requires path !in s.failed && path !in s.captureFailed
    ensures Secured(c, content, h + [Saved(VitalsTable, s.vitals, s.vitalsRows)] + [Saved(ErrorsTable, s.errors, s.errorsRows)], prefix, path)
  {
    var one := h + [Saved(VitalsTable, s.vitals, s.vitalsRows)];
    var two := one + [Saved(ErrorsTable, s.errors, s.errorsRows)];
    SavedMeansBuffered(c, content, VitalsTable, h, s.vitals, s.vitalsRows, path);
    BufferedLater(c, content, VitalsTable, one, [Saved(ErrorsTable, s.errors, s.errorsRows)], path);
    SavedMeansBuffered(c, content, ErrorsTable, one, s.errors, s.errorsRows, path);
    assert Quiet(h, two);
    QuietKeeps(c, content, h, two, prefix);
  }

  /** Once both buffers are written, every object of a chunk is secured or kept from deletion. */
  lemma ChunkSecured(c: Codec, content: Content, h: seq<Event>, prefix: string, s: ChunkState, p: string)
    requires s.Consistent(c, content) && s.Settled(c, content, h, prefix, p)
    ensures p in s.failed || p in s.captureFailed ||
            Secured(c, content, h + (if s.vitals == [] then [] else [Saved(VitalsTable, s.vitals, s.vitalsRows)])
                                  + (if s.errors == [] then [] else [Saved(ErrorsTable, s.errors, s.errorsRows)]), prefix, p)
  {
    if p !in s.failed && p !in s.captureFailed {
      assert s.vitals != [] && s.errors != [];
      BothBuffers(c, content, h, prefix, s, p);
    }
  }

  method RemoveRaw(w: World, chunk: seq<string>, excluded: set<string>)
    requires w.Valid() && NoLoss(w.c, w.content, w.history, w.prefix)
    requires forall p :: p in chunk ==> p in excluded || Secured(w.c, w.content, w.history, w.prefix, p)
    modifies w`history
    ensures w.Valid() && NoLoss(w.c, w.content, w.history, w.prefix)
    ensures var asked := Deletable(chunk, w.prefix, excluded);
            w.history == if asked == [] then old(w.history) else old(w.history) + [Remove(asked)]
    ensures forall p :: p in chunk && w.prefix <= p && p !in excluded ==> AskedAway(w.history, p)
  {
    var asked := Deletable(chunk, w.prefix, excluded);
    DeletableMembers(chunk, w.prefix, excluded);
    if asked != [] {
      NoLossQuiet(w.c, w.content, w.history, Remove(asked), w.prefix);
      w.history := w.history + [Remove(asked)];
      assert w.history[|w.history| - 1] == Remove(asked);
    }
  }

  /** The deletion of the object was asked for. */
  ghost predicate AskedAway(h: seq<Event>, p: string) { exists i :: 0 <= i < |h| && h[i].Remove? && p in h[i].paths }

  lemma AskedLater(before: seq<Event>, after: seq<Event>, p: string)
    requires before <= after && AskedAway(before, p)
    ensures AskedAway(after, p)
  {
    var i :| 0 <= i < |before| && before[i].Remove? && p in before[i].paths;
    assert after[i] == before[i];
  }

  lemma SecuredLater(c: Codec, content: Content, before: seq<Event>, after: seq<Event>, prefix: string, p: string)
    requires before <= after && Secured(c, content, before, prefix, p)
    ensures Secured(c, content, after, prefix, p)
  {
    var more := after[|before|..];
    assert after == before + more;
    BufferedLater(c, content, VitalsTable, before, more, p);
    BufferedLater(c, content, ErrorsTable, before, more, p);
  }

  /** Both buffers, vitals first; the second is not written if the first fails. */
  method SaveBoth(w: World, chunk: seq<string>, s: ChunkState) returns (ok: bool)
    requires w.Valid() && s.Consistent(w.c, w.content)
    requires forall i :: 0 <= i < |chunk| ==> s.Settled(w.c, w.content, w.history, w.prefix, chunk[i])
    modifies w
    ensures w.Valid() && Quiet(old(w.history), w.history)
    ensures (forall n :: !w.writeFails(n)) ==> ok
    ensures ok ==> Through(w, w.history, chunk, s.failed, s.captureFailed, false)
  {
    ghost var h := w.history;
    ok := Save(w, VitalsTable, s.vitals, s.vitalsRows);
    if ok {
      ok := Save(w, ErrorsTable, s.errors, s.errorsRows);
      if ok {
        forall p | p in chunk
          ensures p in s.failed || p in s.captureFailed || Secured(w.c, w.content, w.history, w.prefix, p)
        {
          ChunkSecured(w.c, w.content, h, w.prefix, s, p);
        }
      }
    }
  }

  /** One turn of the chunk loop. `ok` is false if a write raised, which ends the whole run. */
  method Chunk(w: World, idx: nat, chunk: seq<string>, failed: set<string>, captureFailed: set<string>, deleteAfter: bool)
      returns (ok: bool, s: ChunkState)
    requires w.Valid() && NoLoss(w.c, w.content, w.history, w.prefix)
    modifies w, w.pre, w.evidence
    ensures w.Valid() && NoLoss(w.c, w.content, w.history, w.prefix) && old(w.history) <= w.history
    ensures s.failed == failed + Unread(w.downloads, w.content, idx, chunk)
    ensures captureFailed <= s.captureFailed <= captureFailed + Troubles(w, chunk)
    ensures (forall n :: !w.writeFails(n)) ==> ok
    ensures !ok || !deleteAfter ==> Quiet(old(w.history), w.history)
    ensures ok ==> Through(w, w.history, chunk, s.failed, s.captureFailed, deleteAfter)
  {
    s := ReadChunk(w, idx, chunk, ChunkState(failed, captureFailed, [], [], [], []));
    QuietKeeps(w.c, w.content, old(w.history), w.history, w.prefix);
    ghost var h := w.history;
    ok := SaveBoth(w, chunk, s);
    QuietKeeps(w.c, w.content, h, w.history, w.prefix);
    if ok && deleteAfter {
      ghost var saved := w.history;
      RemoveRaw(w, chunk, s.failed + s.captureFailed);
      ThroughAway(w, saved, w.history, chunk, s.failed, s.captureFailed);
    }
  }

  /** Every object of a chunk is among the failures, or secured and, if `away`, asked away. */
  ghost predicate Through(w: World, h: seq<Event>, chunk: seq<string>, failed: set<string>, captureFailed: set<string>, away: bool) {
    forall p :: p in chunk ==>
      || p in failed || p in captureFailed
      || (Secured(w.c, w.content, h, w.prefix, p) && (away && w.prefix <= p ==> AskedAway(h, p)))
  }

  lemma ThroughAway(w: World, before: seq<Event>, h: seq<Event>, chunk: seq<string>, failed: set<string>, captureFailed: set<string>)
    requires before <= h && Through(w, before, chunk, failed, captureFailed, false)
    requires forall p :: p in chunk && w.prefix <= p && p !in failed + captureFailed ==> AskedAway(h, p)
    ensures Through(w, h, chunk, failed, captureFailed, true)
  {
    forall p | p in chunk && p !in failed && p !in captureFailed ensures Secured(w.c, w.content, h, w.prefix, p) {
      SecuredLater(w.c, w.content, before, h, w.prefix, p);
    }
  }

  const CHUNK: nat := 50

  /** Of the first `n` objects, fifty to a chunk, those that did not arrive with their chunk or could not be read. */
  ghost function FailedOf(w: World, files: seq<string>, n: nat): set<string>
    requires n <= |files|
  {
    set j | 0 <= j < n && !(w.downloads(j / 50, files[j]) && w.content(files[j]).Some?) :: files[j]
  }

  lemma FailedNext(w: World, files: seq<string>, done: nat, end: nat, idx: nat)
    requires done <= end <= |files| && done == 50 * idx && end <= done + 50
    ensures FailedOf(w, files, end) == FailedOf(w, files, done) + Unread(w.downloads, w.content, idx, files[done..end])
  {
    var now, before, chunk := FailedOf(w, files, end), FailedOf(w, files, done), files[done..end];
    forall j | done <= j < end ensures j / 50 == idx && files[j] == chunk[j - done] {
    }
    forall p | p in Unread(w.downloads, w.content, idx, chunk) ensures p in now {
      var k :| 0 <= k < |chunk| && chunk[k] == p;
      assert files[done + k] == p && (done + k) / 50 == idx;
    }
    forall p | p in now ensures p in before + Unread(w.downloads, w.content, idx, chunk) {
      var j :| 0 <= j < end && !(w.downloads(j / 50, files[j]) && w.content(files[j]).Some?) && files[j] == p;
      if j >= done {
        assert chunk[j - done] == p && p in chunk;
      }
    }
  }

  lemma ThroughNext(w: World, before: seq<Event>, h: seq<Event>, files: seq<string>, done: nat, end: nat, failed: set<string>,
                  captureFailed: set<string>, failed': set<string>, captureFailed': set<string>, away: bool)
    requires done <= end <= |files| && before <= h && failed <= failed' && captureFailed <= captureFailed'
    requires Through(w, before, files[..done], failed, captureFailed, away)
    requires Through(w, h, files[done..end], failed', captureFailed', away)
    ensures Through(w, h, files[..end], failed', captureFailed', away)
  {
    assert files[..end] == files[..done] + files[done..end];
    forall p | p in files[..done] && p !in failed' && p !in captureFailed'
      ensures Secured(w.c, w.content, h, w.prefix, p) && (away && w.prefix <= p ==> AskedAway(h, p))
    {
      SecuredLater(w.c, w.content, before, h, w.prefix, p);
      if away && w.prefix <= p {
        AskedLater(before, h, p);
      }
    }
  }

  /** The whole loop over the newly listed objects; `late(k)` says whether the time budget is found
      used up before chunk `k`. However it ends, nothing was removed that was not secured before. It stops early only
      on a failed write or a used-up budget; every object before that is among the failures, or secured and, if raw
      objects are to go, asked away; the failed ones are just those that did not arrive or could not be read, and a
      capture fails only if something stands in its way. */
  method IngestAll(w: World, files: seq<string>, cfg: CronSync, late: nat -> bool)
      returns (ok: bool, done: nat, failed: set<string>, captureFailed: set<string>)
    requires w.Valid() && w.history == []
    modifies w, w.pre, w.evidence
    ensures NoLoss(w.c, w.content, w.history, w.prefix)
    ensures !ResolveDelete(cfg, None) ==> forall i :: 0 <= i < |w.history| ==> !w.history[i].Remove?
    ensures (forall n :: !w.writeFails(n)) ==> ok
    ensures done <= |files| && (ok && done < |files| ==> done > 0 && done % 50 == 0 && late(done / 50))
    ensures ok ==> Through(w, w.history, files[..done], failed, captureFailed, ResolveDelete(cfg, None))
    ensures ok ==> failed == FailedOf(w, files, done)
    ensures forall p :: p in captureFailed ==> p in files && Troubled(w, p)
  {
    var deleteAfter := ResolveDelete(cfg, None);
    ok, failed, captureFailed := true, {}, {};
    var idx := 0;
    done := 0;
    while done < |files| && ok && !(idx > 0 && late(idx))
      invariant done <= |files| && w.Valid() && NoLoss(w.c, w.content, w.history, w.prefix)
      invariant !deleteAfter ==> Quiet([], w.history)
      invariant (forall n :: !w.writeFails(n)) ==> ok
      invariant ok ==> done == 50 * idx || done == |files|
      invariant ok ==> Through(w, w.history, files[..done], failed, captureFailed, deleteAfter)
      invariant ok ==> failed == FailedOf(w, files, done)
      invariant forall p :: p in captureFailed ==> p in files && Troubled(w, p)
      decreases |files| - done, ok
    {
      var end := if done + CHUNK < |files| then done + CHUNK else |files|;
      ghost var h := w.history;
      var s;
      ok, s := Chunk(w, idx, files[done..end], failed, captureFailed, deleteAfter);
      if ok {
        FailedNext(w, files, done, end, idx);
        ThroughNext(w, h, w.history, files, done, end, failed, captureFailed, s.failed, s.captureFailed, deleteAfter);
      }
      failed, captureFailed := s.failed, s.captureFailed;
      done, idx := end, idx + 1;
    }
  }
}
