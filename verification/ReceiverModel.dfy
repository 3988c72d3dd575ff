/** The receiver of `receiver.py` as a function of its state.

    Each function below is one region the source runs under its lock (or, for file operations, between two locks), so a
    run of the receiver is a sequence of these functions in any order its threads allow.  What the main thread still has
    to do after releasing the lock waits in `todo`; finalizations wait in `queue`.

    A transfer object is identified by its part file: it keeps that file for life, while its transfer id changes when
    the transfer is resumed under a new one. */
module ReceiverModel {
  import opened Bytes
  import opened Ranges
  import opened Frames
  import opened Repair
  import opened PreMetadata
  import opened Pacing
  import Tracker

  const MTIME_KEY := 3
  const QUERY_PATH_KEY := 100
  const QUERY_NAME: bytes := [0x5f, 0x5f, 0x73, 0x74, 0x61, 0x74, 0x75, 0x73, 0x5f, 0x71, 0x75, 0x65, 0x72, 0x79, 0x5f, 0x5f]

  // ---------------------------------------------------------------- state

  datatype Config = Config(keepParts: bool, quiet: real, staleTimeout: real, flushInterval: real,
                           pacing: PacingConfig, repair: RepairConfig, pre: PreConfig)

  /** The surroundings of the receiver: the hash function and the mapping of file names to destination paths. */
  datatype Host = Host(sha: bytes -> bytes, dest: bytes -> Option<bytes>)

  datatype Signature = Signature(size: int, chunkSize: int, sha: bytes, name: bytes)

  function SignatureOf(m: Manifest): (g: Signature)
  {
    Signature(m.fileSize, m.chunkSize, m.sha, m.name)
  }

  datatype Transfer = Transfer(manifest: Manifest, part: bytes, dest: bytes, received: set<int>, highest: int,
                               finalized: bool, done: bool, lastActivity: real, lastData: real, pace: Pace)

  /** A journal record. */
  datatype Record = Record(manifest: Manifest, part: bytes, received: seq<Range>, highest: int)

  datatype FinalFile = FinalFile(content: bytes, mtime: int)

  datatype CacheEntry = CacheEntry(size: int, mtime: int, sha: bytes)

  datatype Task = Register(manifest: Manifest) | Replay(id: bytes, index: int, payload: bytes)
                | Queue(id: bytes, missing: seq<Range>) | Advertise(id: bytes)

  /** A finalization waiting in the queue: the transfer object and its missing ranges. */
  datatype Job = Job(part: bytes, missing: seq<Range>)

  /** A finalization between its file operations and its second locked region. */
  datatype Verdict = Verdict(id: bytes, part: bytes, dest: bytes, state: TransferState, missing: seq<Range>,
                             cached: Option<CacheEntry>)

  datatype Receiver = Receiver(transfers: map<bytes, Transfer>, index: map<Signature, bytes>, pre: Pre,
                               cache: map<bytes, CacheEntry>, dirty: bool, lastFlush: real,
                               todo: seq<Task>, queue: seq<Job>, working: Option<Verdict>,
                               parts: map<bytes, bytes>, finals: map<bytes, FinalFile>, journal: map<bytes, Record>)

  /** A step's new state and the messages it sends. */
  datatype Outcome = Outcome(state: Receiver, sent: seq<Message>)

  // ---------------------------------------------------------------- chunks and files

  /** Where chunk `i` ends in a file of the given size. */
  function ChunkEnd(size: int, chunkSize: int, i: int): (e: int)
  {
    if (i + 1) * chunkSize < size then (i + 1) * chunkSize else size
  }

  /** `_read_chunk`: the bytes of chunk `i`, empty past the end. */
  function ChunkOf(file: bytes, chunkSize: int, i: int): (s: bytes)
    requires chunkSize > 0 && i >= 0
  {
    Product(i, chunkSize);
    if i * chunkSize < |file| then file[i * chunkSize..ChunkEnd(|file|, chunkSize, i)] else []
  }

  lemma Product(i: int, n: int)
    requires i >= 0 && n > 0
    ensures 0 <= i * n < (i + 1) * n == i * n + n
  {
  }

  function WriteAt(file: bytes, start: nat, payload: bytes): (r: bytes)
    requires start + |payload| <= |file|
    ensures |r| == |file|
  {
    file[..start] + payload + file[start + |payload|..]
  }

  /** The write into a part file.  A part file that is missing or too short cannot be written. */
  function WritePart(parts: map<bytes, bytes>, part: bytes, start: int, payload: bytes): (r: map<bytes, bytes>)
  {
    if part in parts && 0 <= start && start + |payload| <= |parts[part]|
    then parts[part := WriteAt(parts[part], start, payload)] else parts
  }

  function Zeros(n: int): (s: bytes)
    ensures |s| == if n < 0 then 0 else n
  {
    seq(if n < 0 then 0 else n, _ => 0)
  }

  /** `SOURCE_MTIME_NS`, when it is there and eight octets long. */
  function SourceMtime(m: Manifest): (t: Option<int>)
  {
    if Has(m.metadata, MTIME_KEY) && |Get(m.metadata, MTIME_KEY)| == 8
    then Some(FromBE(Get(m.metadata, MTIME_KEY))) else None
  }

  predicate FileInfoQuery(m: Manifest)
  {
    Has(m.metadata, QUERY_PATH_KEY) && m.name == QUERY_NAME
  }

  // ---------------------------------------------------------------- journal

  function MissingOf(t: Transfer): (rs: seq<Range>)
  {
    RangesBelow(Interval(0, t.manifest.totalChunks) - t.received,
                if t.manifest.totalChunks < 0 then 0 else t.manifest.totalChunks)
  }

  /** The tracker's range list. */
  function ReceivedOf(t: Transfer): (rs: seq<Range>)
  {
    RangesBelow(t.received, if t.manifest.totalChunks < 0 then 0 else t.manifest.totalChunks)
  }

  function RecordOf(t: Transfer): (r: Record)
  {
    Record(t.manifest, t.part, ReceivedOf(t), t.highest)
  }

  /** `_save_journal_locked`: a record for every transfer that is not finalized. */
  function JournalOf(transfers: map<bytes, Transfer>): (j: map<bytes, Record>)
  {
    map id | id in transfers && !transfers[id].finalized :: RecordOf(transfers[id])
  }

  /** `_flush_journal_locked`. */
  function Flush(c: Config, r: Receiver, now: real, force: bool): (q: Receiver)
  {
    if !r.dirty || (!force && c.flushInterval > 0.0 && now - r.lastFlush < c.flushInterval) then r
    else r.(journal := JournalOf(r.transfers), dirty := false, lastFlush := now)
  }

  // ---------------------------------------------------------------- finalization

  /** `_queue_finalization`. */
  function QueueFinalization(c: Config, r: Receiver, now: real, id: bytes, missing: seq<Range>): (q: Receiver)
  {
    if id !in r.transfers || r.transfers[id].finalized then r
    else
      var t := r.transfers[id].(finalized := true);
      var flagged := r.(transfers := r.transfers[id := t], dirty := true);
      Flush(c, flagged, now, true).(queue := r.queue + [Job(t.part, missing)])
  }

  /** `_remove_transfer_locked` on the index. */
  function WithoutIndex(index: map<Signature, bytes>, g: Signature, id: bytes): (i: map<Signature, bytes>)
  {
    if g in index && index[g] == id then index - {g} else index
  }

  /** The first half of `_finalize_transfer_impl`, for the job at the head of the queue, whose transfer is `id`: hash the
      part file and publish or delete it.  `fileTime` is the time the file system gives a published file. */
  function FinalizeBegin(h: Host, c: Config, r: Receiver, id: bytes, fileTime: int): (q: Receiver)
    requires r.queue != [] && id in r.transfers && r.transfers[id].part == r.queue[0].part
  {
    var t, job := r.transfers[id], r.queue[0];
    var begun := r.(queue := r.queue[1..]);
    if job.missing != [] then
      begun.(working := Some(Verdict(id, t.part, t.dest, INCOMPLETE, job.missing, None)))
    else if t.part !in r.parts then r
    else if h.sha(r.parts[t.part]) != t.manifest.sha then
      begun.(parts := r.parts - {t.part},
             working := Some(Verdict(id, t.part, t.dest, HASH_MISMATCH, [], None)))
    else
      var mtime := if SourceMtime(t.manifest).Some? then SourceMtime(t.manifest).value else fileTime;
      var file := FinalFile(r.parts[t.part], mtime);
      begun.(parts := if c.keepParts then r.parts else r.parts - {t.part},
             finals := r.finals[t.dest := file],
             working := Some(Verdict(id, t.part, t.dest, COMPLETE, [],
                                     Some(CacheEntry(|file.content|, mtime, t.manifest.sha)))))
  }

  /** `transfer.done = …` on the object with that part file, wherever it is registered now. */
  function MarkDone(transfers: map<bytes, Transfer>, part: bytes, done: bool): (m: map<bytes, Transfer>)
  {
    map id | id in transfers :: if transfers[id].part == part then transfers[id].(done := done) else transfers[id]
  }

  /** The second half of `_finalize_transfer_impl`: record the verdict and remove the transfer under the id the first
      half read. */
  function FinalizeEnd(c: Config, r: Receiver, now: real): (o: Outcome)
    requires r.working.Some?
  {
    var v := r.working.value;
    var marked := MarkDone(r.transfers, v.part, v.state.COMPLETE?);
    var removed := r.(transfers := marked - {v.id},
                      index := if v.id in marked then WithoutIndex(r.index, SignatureOf(marked[v.id].manifest), v.id)
                               else r.index,
                      cache := if v.cached.Some? then r.cache[v.dest := v.cached.value]
                               else if !v.state.COMPLETE? then r.cache - {v.dest} else r.cache,
                      working := None, dirty := true);
    Outcome(Flush(c, removed, now, true),
            if c.pacing.feedback then [StatusMsg(Status(v.id, TRANSFER, v.state, v.missing, None, None))] else [])
  }

  // ---------------------------------------------------------------- data

  function Max(a: int, b: int): (m: int)
  {
    if a < b then b else a
  }

  /** The locked part of `_accept_data`. */
  function AcceptData(c: Config, r: Receiver, now: real, id: bytes, index: int, payload: bytes): (q: Receiver)
  {
    if id !in r.transfers then r.(pre := Buffer(c.pre, r.pre, now, id, index, payload))
    else
      var t := r.transfers[id];
      var start := index * t.manifest.chunkSize;
      if t.done || t.finalized || index >= t.manifest.totalChunks || start + |payload| > t.manifest.fileSize then r
      else
        var received := t.received + (if 0 <= index then {index} else {});
        var u := t.(received := received, highest := Max(t.highest, index), lastActivity := now, lastData := now);
        r.(transfers := r.transfers[id := u],
           parts := WritePart(r.parts, t.part, start, payload),
           dirty := r.dirty || received != t.received,
           todo := (if t.manifest.totalChunks > 0 && |received| >= t.manifest.totalChunks
                    then [Queue(id, [])] else []) + r.todo)
  }

  // ---------------------------------------------------------------- metadata

  /** What `_is_matching_completed_file` finds: the file agrees by cached hash, by size and time, or by hash. */
  datatype Match = NoMatch | ByCache | ByTime | ByHash

  function Matching(h: Host, r: Receiver, dest: bytes, m: Manifest): (x: Match)
  {
    if dest !in r.finals || |r.finals[dest].content| != m.fileSize then NoMatch
    else
      var f := r.finals[dest];
      if dest in r.cache && r.cache[dest] == CacheEntry(|f.content|, f.mtime, m.sha) then ByCache
      else if SourceMtime(m).Some? then (if f.mtime == SourceMtime(m).value then ByTime else NoMatch)
      else if h.sha(f.content) == m.sha then ByHash else NoMatch
  }

  function CompleteStatus(id: bytes): (m: Message)
  {
    StatusMsg(Status(id, TRANSFER, COMPLETE, [], None, None))
  }

  /** `_prepare_transfer` up to its lock: answer for a file that is already there, or go on to register the transfer. */
  function HandleMetadata(h: Host, c: Config, r: Receiver, m: Manifest): (o: Outcome)
  {
    if FileInfoQuery(m) || h.dest(m.name).None? then Outcome(r, [])
    else
      var dest := h.dest(m.name).value;
      var match_ := Matching(h, r, dest, m);
      var cache := if dest !in r.finals then r.cache - {dest}
                   else if match_.ByHash?
                   then r.cache[dest := CacheEntry(|r.finals[dest].content|, r.finals[dest].mtime, m.sha)]
                   else r.cache;
      if match_.NoMatch? then Outcome(r.(cache := cache, todo := [Register(m)] + r.todo), [])
      else Outcome(r.(cache := cache), if c.pacing.feedback then [CompleteStatus(m.id)] else [])
  }

  /** `_maybe_advertise_receiver_state`. */
  function AdvertiseState(c: Config, t: Transfer, now: real): (sent: seq<Message>)
  {
    if !c.pacing.feedback || |t.received| <= 0 then []
    else if t.lastData > 0.0 && now - t.lastData < c.quiet && |t.received| < t.manifest.totalChunks then []
    else
      var missing := MissingOf(t);
      [StatusMsg(Status(t.manifest.id, TRANSFER, if t.done && missing == [] then COMPLETE else INCOMPLETE,
                        LimitMissing(c.repair, missing), None, None))]
  }

  /** `_find_transfer_by_manifest_locked` on the index: a stale entry is dropped. */
  function FoundIndex(r: Receiver, g: Signature): (i: map<Signature, bytes>)
  {
    if g in r.index && r.index[g] !in r.transfers then r.index - {g} else r.index
  }

  /** The locked part of `_prepare_transfer`: repeat, collide, resume under a new id, or create. */
  function RegisterTransfer(h: Host, c: Config, r: Receiver, now: real, m: Manifest): (o: Outcome)
  {
    var g := SignatureOf(m);
    if h.dest(m.name).None? then Outcome(r, [])
    else if m.id in r.transfers then
      if SignatureOf(r.transfers[m.id].manifest) != g then Outcome(r, [])
      else Outcome(r, AdvertiseState(c, r.transfers[m.id], now))
    else
      var index := FoundIndex(r, g);
      if g in index then
        var previous := index[g];
        var t := r.transfers[previous];
        var u := t.(manifest := m);
        Outcome(r.(transfers := (r.transfers - {previous})[m.id := u],
                   index := WithoutIndex(index, SignatureOf(t.manifest), previous)[g := m.id],
                   dirty := true),
                AdvertiseState(c, u, now))
      else
        var t := Transfer(m, m.id, h.dest(m.name).value, {}, -1, false, false, now, 0.0, FRESH);
        var buffered := Popped(r.pre, m.id);
        Outcome(r.(transfers := r.transfers[m.id := t],
                   index := index[g := m.id],
                   parts := if m.id in r.parts then r.parts else r.parts[m.id := Zeros(m.fileSize)],
                   pre := Pop(r.pre, m.id),
                   dirty := true,
                   todo := (if m.totalChunks == 0 then [Queue(m.id, [])]
                            else if buffered == [] then []
                            else seq(|buffered|, k requires 0 <= k < |buffered| =>
                                                   Replay(m.id, buffered[k].key, buffered[k].value))
                                 + [Advertise(m.id)]) + r.todo),
                [])
  }

  // ---------------------------------------------------------------- the main thread

  /** The next thing the main thread does after a lock it released. */
  function RunTask(h: Host, c: Config, r: Receiver, now: real): (o: Outcome)
    requires r.todo != []
  {
    var rest := r.(todo := r.todo[1..]);
    match r.todo[0]
    case Register(m) => RegisterTransfer(h, c, rest, now, m)
    case Replay(id, index, payload) => Outcome(AcceptData(c, rest, now, id, index, payload), [])
    case Queue(id, missing) => Outcome(QueueFinalization(c, rest, now, id, missing), [])
    case Advertise(id) =>
      Outcome(rest, if id in rest.transfers then AdvertiseState(c, rest.transfers[id], now) else [])
  }

  /** A beacon for an active transfer: the sender is alive. */
  function HandleBeacon(r: Receiver, now: real, id: bytes): (q: Receiver)
  {
    if id !in r.transfers || r.transfers[id].finalized then r
    else r.(transfers := r.transfers[id := r.transfers[id].(lastActivity := now)], dirty := true)
  }

  /** A datagram taken from the socket. */
  function Handle(h: Host, c: Config, r: Receiver, now: real, raw: bytes): (o: Outcome)
  {
    match Decode(raw)
    case Ok(MetadataMsg(m)) => HandleMetadata(h, c, r, m)
    case Ok(DataMsg(d)) => Outcome(AcceptData(c, r, now, d.id, d.index, d.payload), [])
    case Ok(BeaconMsg(b)) => Outcome(HandleBeacon(r, now, b.id), [])
    case _ => Outcome(r, [])
  }

  // ---------------------------------------------------------------- timers

  /** `_maybe_send_periodic_repair_request` for an active transfer. */
  function RepairTick(c: Config, r: Receiver, now: real, id: bytes): (o: Outcome)
  {
    if id !in r.transfers || r.transfers[id].done || r.transfers[id].finalized then Outcome(r, [])
    else
      var t := r.transfers[id];
      var limited := LimitForTransfer(c.repair, t.highest, MissingOf(t));
      var (pace, sends) := Periodic(c.pacing, t.pace, |t.received|, t.highest, Length(limited, |limited|), now);
      Outcome(r.(transfers := r.transfers[id := t.(pace := pace)]),
              if sends then [StatusMsg(RepairStatus(t.manifest.id, limited))] else [])
  }

  /** `_maybe_finalize_stale_transfer`. */
  function StaleCheck(c: Config, r: Receiver, now: real, id: bytes): (q: Receiver)
  {
    if id !in r.transfers || r.transfers[id].finalized || c.staleTimeout <= 0.0
       || now - r.transfers[id].lastActivity < c.staleTimeout then r
    else
      var t := r.transfers[id];
      if MissingOf(t) != [] then
        r.(transfers := r.transfers[id := t.(lastActivity := now, pace := StaleReset(t.pace))], dirty := true)
      else r.(todo := [Queue(id, MissingOf(t))] + r.todo)
  }

  // ---------------------------------------------------------------- crash and restart

  /** `_restore_transfer` finds the part file at its full size. */
  predicate Restorable(h: Host, r: Receiver, rec: Record)
  {
    h.dest(rec.manifest.name).Some? && rec.part in r.parts && |r.parts[rec.part]| == rec.manifest.fileSize
  }

  function Restored(h: Host, rec: Record, now: real): (t: Transfer)
    requires h.dest(rec.manifest.name).Some?
  {
    var total := if rec.manifest.totalChunks < 0 then 0 else rec.manifest.totalChunks;
    Transfer(rec.manifest, rec.part, h.dest(rec.manifest.name).value,
             Elems(Tracker.FromReceived(rec.received, total)), Max(-1, rec.highest), false, false, now, 0.0, FRESH)
  }

  function RestoredTransfers(h: Host, r: Receiver, now: real): (m: map<bytes, Transfer>)
  {
    map id | id in r.journal && Restorable(h, r, r.journal[id]) :: Restored(h, r.journal[id], now)
  }

  function Signatures(transfers: map<bytes, Transfer>): (s: set<Signature>)
  {
    set id | id in transfers :: SignatureOf(transfers[id].manifest)
  }

  ghost function IdWith(transfers: map<bytes, Transfer>, g: Signature): (id: bytes)
    requires g in Signatures(transfers)
    ensures id in transfers && SignatureOf(transfers[id].manifest) == g
  {
    var id :| id in transfers && SignatureOf(transfers[id].manifest) == g; id
  }

  /** The index that registering every transfer of the map leaves behind (any one id where signatures collide). */
  ghost function IndexOf(transfers: map<bytes, Transfer>): (i: map<Signature, bytes>)
  {
    map g | g in Signatures(transfers) :: IdWith(transfers, g)
  }

  /** A process that dies and is started again on the same directory: memory is lost, files and journal remain, and
      `_load_journal` rebuilds the transfers and rewrites the journal. */
  ghost function Restart(h: Host, c: Config, r: Receiver, now: real): (q: Receiver)
  {
    var transfers := RestoredTransfers(h, r, now);
    var loaded := Receiver(transfers, IndexOf(transfers), EMPTY, map[], true, 0.0, [], [], None,
                           r.parts, r.finals, r.journal);
    if r.journal == map[] then loaded.(dirty := false) else Flush(c, loaded, now, true)
  }
}
