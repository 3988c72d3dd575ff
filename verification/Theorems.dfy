/** The main results about whole runs of senders, network and receiver. */
module Theorems {
  import opened Bytes
  import opened Ranges
  import opened Frames
  import opened Repair
  import opened PreMetadata
  import opened Pacing
  import opened ReceiverModel
  import opened Shapes
  import opened Safety
  import opened Invariant
  import opened InvariantSteps
  import opened System

  // ---------------------------------------------------------------- reassembly

  /** In every reachable state, a transfer that is not finalized has its part file, of the full length; every chunk that
      the tracker of a transfer with a part file holds is in it with the source's bytes; and a full tracker means that the
      part file is the source, byte for byte. */
  lemma Reassembly(w: World, c: Config, s: Sys, events: seq<Event>, id: bytes)
    requires Init(w, s)
    ensures var r := Run(w, c, s, events, |events|).receiver;
            id in r.transfers ==>
              var t := r.transfers[id];
              && (!t.finalized ==> t.part in r.parts)
              && (t.part in r.parts ==>
                    var file, source, n := r.parts[t.part], w.source(Sig(t)), t.manifest.chunkSize;
                    && n > 0 && |file| == |source| == t.manifest.fileSize
                    && (forall i :: i in t.received ==>
                          && 0 <= i < t.manifest.totalChunks && 0 <= i * n <= ChunkEnd(|source|, n, i) <= |source|
                          && file[i * n..ChunkEnd(|source|, n, i)] == source[i * n..ChunkEnd(|source|, n, i)])
                    && (t.received == AllOf(t) ==> file == source))
  {
    RunOk(w, c, s, events, |events|);
    var u := Run(w, c, s, events, |events|);
    SysReceiver(w, u);
    hide Run, Init, Inv, SysInv;
    if id in u.receiver.transfers {
      var t := u.receiver.transfers[id];
      InvTransfer(w, u.history, u.receiver, id);
      if t.part in u.receiver.parts {
        HeldChunks(w, u.history, u.receiver.parts, t);
      }
    }
  }

  lemma InvTransfer(w: World, h: History, r: Receiver, id: bytes)
    requires Inv(w, h, r) && id in r.transfers
    ensures TransferOk(w, h, r.parts, r.transfers[id])
  {
    OneTransfer(w, h, r.parts, r.transfers, id);
  }

  lemma HeldChunks(w: World, h: History, parts: map<bytes, bytes>, t: Transfer)
    requires TransferOk(w, h, parts, t) && t.part in parts
    ensures var file, source, n := parts[t.part], w.source(Sig(t)), t.manifest.chunkSize;
            && n > 0 && |file| == |source| == t.manifest.fileSize
            && (forall i :: i in t.received ==>
                  && 0 <= i < t.manifest.totalChunks && 0 <= i * n <= ChunkEnd(|source|, n, i) <= |source|
                  && file[i * n..ChunkEnd(|source|, n, i)] == source[i * n..ChunkEnd(|source|, n, i)])
            && (t.received == AllOf(t) ==> file == source)
  {
    var file, source, n := parts[t.part], w.source(Sig(t)), t.manifest.chunkSize;
    TotalNat(t.manifest);
    forall i | i in t.received
      ensures 0 <= i < t.manifest.totalChunks && 0 <= i * n <= ChunkEnd(|source|, n, i) <= |source|
      ensures file[i * n..ChunkEnd(|source|, n, i)] == source[i * n..ChunkEnd(|source|, n, i)]
    {
      assert i in AllOf(t);
      assert HoldsChunk(w, Sig(t), file, i);
      ChunkInside(t.manifest.fileSize, n, i);
      Product(i, n);
    }
    if t.received == AllOf(t) {
      AllChunksIsSource(w, Sig(t), file);
    }
  }

  // ---------------------------------------------------------------- end-to-end agreement

  /** What the history remembers was once there. */
  lemma {:induction false} SeenWasThere(w: World, c: Config, s: Sys, events: seq<Event>, n: nat, path: bytes, hash: bytes)
    requires Init(w, s) && n <= |events| && (path, hash) in Run(w, c, s, events, n).history.seen
    ensures exists j :: 0 <= j <= n && HadFile(w, Run(w, c, s, events, j).receiver, path, hash)
  {
    var t := Run(w, c, s, events, n);
    if n == 0 {
      assert HadFile(w, t.receiver, path, hash);
    } else {
      var u := Run(w, c, s, events, n - 1);
      if (path, hash) in u.history.seen {
        SeenWasThere(w, c, s, events, n - 1, path, hash);
      } else {
        StepHistory(w, c, u, events[n - 1]);
        assert HadFile(w, t.receiver, path, hash);
      }
    }
  }

  ghost predicate HadFile(w: World, r: Receiver, path: bytes, hash: bytes)
  {
    path in r.finals && w.host.sha(r.finals[path].content) == hash
  }

  lemma StepHistory(w: World, c: Config, s: Sys, e: Event)
    ensures var t := Step(w, c, s, e);
            t.history.seen == s.history.seen || t.history.seen == s.history.seen + Observed(w, t.receiver)
  {
    hide RunTask, RepairTick, StaleCheck, Flush, FinalizeBegin, FinalizeEnd, Restart, Handle, Observed;
  }

  /** If `send_file` with feedback returns completed for a file that has chunks, then at some earlier time the receiver
      had a final file with the manifest's hash at the manifest's destination, unless a METADATA of this transfer was
      answered by the size-and-time shortcut for a file with another hash. */
  lemma EndToEnd(w: World, c: Config, s: Sys, events: seq<Event>, id: bytes)
    requires Init(w, s)
    ensures var t := Run(w, c, s, events, |events|);
            id in t.senders && t.senders[id].phase == Finished(true) && t.senders[id].manifest.totalChunks > 0
            && id !in t.history.byTime ==>
              var m := t.senders[id].manifest;
              && w.host.dest(m.name).Some?
              && exists j :: 0 <= j <= |events| &&
                   HadFile(w, Run(w, c, s, events, j).receiver, w.host.dest(m.name).value, m.sha)
  {
    RunOk(w, c, s, events, |events|);
    var t := Run(w, c, s, events, |events|);
    if id in t.senders && t.senders[id].phase == Finished(true) && t.senders[id].manifest.totalChunks > 0
       && id !in t.history.byTime {
      OneSender(w, t, id);
      var m := t.senders[id].manifest;
      assert Published(w, t.history, SignatureOf(m));
      SeenWasThere(w, c, s, events, |events|, w.host.dest(m.name).value, m.sha);
    }
  }

  // ---------------------------------------------------------------- journal and index

  /** In every reachable state, every journal record lists only chunks whose source bytes are already in its part file:
      a crash at that moment restores nothing that is not there. */
  lemma JournalIsBacked(w: World, c: Config, s: Sys, events: seq<Event>, a: bytes, i: int)
    requires Init(w, s)
    ensures var r := Run(w, c, s, events, |events|).receiver;
            a in r.journal && i in Elems(r.journal[a].received) ==>
              var rec := r.journal[a];
              var g := SignatureOf(rec.manifest);
              && rec.part in r.parts && |r.parts[rec.part]| == g.size && g.chunkSize > 0 && i >= 0
              && ChunkOf(r.parts[rec.part], g.chunkSize, i) == ChunkOf(w.source(g), g.chunkSize, i)
  {
    RunOk(w, c, s, events, |events|);
    var t := Run(w, c, s, events, |events|);
    SysReceiver(w, t);
    if a in t.receiver.journal && i in Elems(t.receiver.journal[a].received) {
      assert RecordOk(w, t.receiver.parts, a, t.receiver.journal[a]);
      assert HoldsChunk(w, SignatureOf(t.receiver.journal[a].manifest), t.receiver.parts[t.receiver.journal[a].part], i);
    }
  }

  /** In every reachable state the signature index is the exact inverse of the transfers: its keys are the signatures of
      the transfers, it maps each to the id that the transfer is registered under and that its manifest carries; and
      distinct transfers have distinct part files. */
  lemma IndexIsInverse(w: World, c: Config, s: Sys, events: seq<Event>)
    requires Init(w, s)
    ensures var r := Run(w, c, s, events, |events|).receiver;
            && r.index.Keys == Signatures(r.transfers)
            && (forall id :: id in r.transfers ==> r.index[Sig(r.transfers[id])] == id == r.transfers[id].manifest.id)
            && (forall a, b :: a in r.transfers && b in r.transfers && r.transfers[a].part == r.transfers[b].part ==> a == b)
  {
    RunOk(w, c, s, events, |events|);
    var t := Run(w, c, s, events, |events|);
    SysReceiver(w, t);
    DistinctParts(w, t.history, t.receiver);
    hide Run, Init, SysInv, TransfersOk, JournalOk, QueueOk, PreOk, TodoOk, WorkingOk, FilesOk, PartsOk;
    assert t.receiver.index.Keys == Signatures(t.receiver.transfers);
  }

  // ---------------------------------------------------------------- finalization discipline

  /** A step that leaves the final files alone, keeps every part file, and writes only into part files of transfers that
      are not finalized. */
  ghost predicate FilesKept(r: Receiver, q: Receiver)
  {
    && q.finals == r.finals
    && forall p :: p in r.parts ==> p in q.parts && (q.parts[p] == r.parts[p] || OpenPart(r, p))
  }

  ghost predicate OpenPart(r: Receiver, p: bytes)
  {
    exists id :: id in r.transfers && r.transfers[id].part == p && !r.transfers[id].finalized
  }

  lemma DataFiles(r: Receiver, q: Receiver, id: bytes)
    requires q.finals == r.finals
    requires q.parts == r.parts || (id in r.transfers && !r.transfers[id].finalized
                                    && PartWritten(r.parts, q.parts, r.transfers[id].part))
    ensures FilesKept(r, q)
  {
    forall p | p in r.parts && q.parts[p] != r.parts[p] ensures OpenPart(r, p) {
      assert r.transfers[id].part == p;
    }
  }

  lemma AcceptFiles(c: Config, r: Receiver, now: real, id: bytes, index: int, payload: bytes)
    ensures FilesKept(r, AcceptData(c, r, now, id, index, payload))
  {
    AcceptShape(c, r, now, id, index, payload);
    hide AcceptData, OneOpen, PartWritten;
    DataFiles(r, AcceptData(c, r, now, id, index, payload), id);
  }

  lemma RegisterFiles(h: Host, c: Config, r: Receiver, now: real, m: Manifest)
    ensures FilesKept(r, RegisterTransfer(h, c, r, now, m).state)
  {
    hide AdvertiseState, Popped, Pop, WithoutIndex, Zeros, OpenPart;
    if h.dest(m.name).None? || m.id in r.transfers {
    } else if SignatureOf(m) in FoundIndex(r, SignatureOf(m)) {
    } else {
    }
  }

  /** Only the first half of a finalization publishes, moves or deletes; no other step does, and none writes into the
      part file of a finalized transfer. */
  lemma StepFiles(w: World, c: Config, s: Sys, e: Event)
    requires !e.BeginFinalize?
    ensures FilesKept(s.receiver, Step(w, c, s, e).receiver)
  {
    StepReceiver(w, c, s, e);
    hide Step, Enabled, ReceiverAfter, OpenPart;
    if OfSender(e) {
      SendersLeaveReceiver(w, c, s, e);
    } else if Enabled(w, s, e) {
      FilesAfter(w, c, s, e);
    }
  }

  lemma FilesAfter(w: World, c: Config, s: Sys, e: Event)
    requires Enabled(w, s, e) && !OfSender(e) && !e.BeginFinalize?
    ensures FilesKept(s.receiver, ReceiverAfter(w, c, s, e))
  {
    var r := s.receiver;
    hide Handle, RunTask, Flush, FinalizeEnd, Restart, RepairTick, StaleCheck, EvictExpired, OneOpen, OpenPart, MarkDone;
    match e
    case Deliver(raw, now) => DeliverFiles(w, c, r, now, raw);
    case MainTask(now) => TaskFiles(w, c, r, now);
    case RepairTimer(id, now) => RepairTickShape(c, r, now, id);
    case StaleTimer(id, now) => StaleShape(c, r, now, id);
    case FlushTimer(now) => FlushShape(c, r, now, false);
    case EndFinalize(now) => EndingShape(c, r, now);
    case CrashRestart(now) => RestartFiles(w.host, c, r, now);
    case _ =>
  }

  lemma RestartFiles(h: Host, c: Config, r: Receiver, now: real)
    ensures Restart(h, c, r, now).finals == r.finals && Restart(h, c, r, now).parts == r.parts
  {
    hide JournalOf, RestoredTransfers, IndexOf;
  }

  lemma TaskFiles(w: World, c: Config, r: Receiver, now: real)
    requires r.todo != []
    ensures FilesKept(r, RunTask(w.host, c, r, now).state)
  {
    var rest := r.(todo := r.todo[1..]);
    hide RegisterTransfer, AcceptData, QueueFinalization, AdvertiseState, OpenPart, FilesKept;
    QueuedFiles(c, rest, now, r.todo[0]);
    match r.todo[0]
    case Register(m) => RegisterFiles(w.host, c, rest, now, m);
    case Replay(id, index, payload) => AcceptFiles(c, rest, now, id, index, payload);
    case _ =>
    RestFiles(r, rest, RunTask(w.host, c, r, now).state);
  }

  lemma QueuedFiles(c: Config, r: Receiver, now: real, task: Task)
    ensures FilesKept(r, r) && (task.Queue? ==> FilesKept(r, QueueFinalization(c, r, now, task.id, task.missing)))
  {
    if task.Queue? {
      QueueingShape(c, r, now, task.id, task.missing);
    }
    hide QueueFinalization, OpenPart;
  }

  lemma RestFiles(r: Receiver, rest: Receiver, q: Receiver)
    requires rest == r.(todo := rest.todo) && FilesKept(rest, q)
    ensures FilesKept(r, q)
  {
    forall p | OpenPart(rest, p) ensures OpenPart(r, p) {
      var id :| id in rest.transfers && rest.transfers[id].part == p && !rest.transfers[id].finalized;
      assert id in r.transfers;
    }
  }

  lemma DeliverFiles(w: World, c: Config, r: Receiver, now: real, raw: bytes)
    ensures FilesKept(r, Handle(w.host, c, r, now, raw).state)
  {
    hide AcceptData, HandleMetadata, HandleBeacon, Decode, OpenPart, OneOpen;
    match Decode(raw) {
      case Ok(MetadataMsg(m)) => MetadataShape(w.host, c, r, m);
      case Ok(DataMsg(d)) => AcceptFiles(c, r, now, d.id, d.index, d.payload);
      case Ok(BeaconMsg(b)) => BeaconShape(r, now, b.id);
      case _ =>
    }
  }

  /** What the first half of a finalization from `r` to `q` does in a reachable state. */
  ghost predicate BeginSays(w: World, r: Receiver, q: Receiver, id: bytes)
    requires id in r.transfers
  {
    var t := r.transfers[id];
    && t.finalized && t.part in r.parts && r.parts[t.part] == w.source(Sig(t))
    && (forall a :: a in r.journal ==> r.journal[a].part != t.part)
    && (forall p :: p in r.parts && p != t.part ==> p in q.parts && q.parts[p] == r.parts[p])
    && (t.part in q.parts ==> q.parts[t.part] == r.parts[t.part])
    && (q.finals != r.finals ==>
          && w.host.sha(r.parts[t.part]) == t.manifest.sha
          && (exists time :: q.finals == r.finals[t.dest := FinalFile(w.source(Sig(t)), time)]))
  }

  lemma BeginFacts(w: World, h: History, c: Config, r: Receiver, id: bytes, fileTime: int)
    requires Inv(w, h, r) && r.queue != [] && id in r.transfers && r.transfers[id].part == r.queue[0].part
    ensures BeginSays(w, r, FinalizeBegin(w.host, c, r, id, fileTime), id)
  {
    hide Inv, FinalizeBegin, TransferOk, Finalizing, QueueOk, AllOf, Later;
    var t := r.transfers[id];
    SameHistory(h);
    FinalizeBeginFacts(w, h, h, r, id);
    BeginFinals(w.host, c, r, id, fileTime);
    BeginCases(w.host, c, r, id, fileTime);
    InvTransfer(w, h, r, id);
    BeginJournal(w, h, r, id);
    HeldChunks(w, h, r.parts, t);
    FullWhenFlagged(w, h, r.parts, t);
  }

  lemma SameHistory(h: History)
    ensures Later(h, h)
  {
  }

  lemma FullWhenFlagged(w: World, h: History, parts: map<bytes, bytes>, t: Transfer)
    requires TransferOk(w, h, parts, t) && t.finalized
    ensures t.received == AllOf(t)
  {
    hide Holds, Honest, Published;
  }

  /** The first half of a finalization publishes the part file, with the manifest's hash, or no file at all. */
  lemma BeginFinals(h: Host, c: Config, r: Receiver, id: bytes, fileTime: int)
    requires r.queue != [] && id in r.transfers && r.transfers[id].part == r.queue[0].part
    ensures var t, q := r.transfers[id], FinalizeBegin(h, c, r, id, fileTime);
            q.finals != r.finals ==>
              && t.part in r.parts && h.sha(r.parts[t.part]) == t.manifest.sha
              && t.dest in q.finals
              && q.finals == r.finals[t.dest := FinalFile(r.parts[t.part], q.finals[t.dest].mtime)]
  {
    hide SourceMtime;
    if r.queue[0].missing != [] {
    } else if r.transfers[id].part !in r.parts {
    } else if h.sha(r.parts[r.transfers[id].part]) != r.transfers[id].manifest.sha {
    } else {
    }
  }

  lemma BeginJournal(w: World, h: History, r: Receiver, id: bytes)
    requires Inv(w, h, r) && id in r.transfers && r.transfers[id].finalized
    ensures forall a :: a in r.journal ==> r.journal[a].part != r.transfers[id].part
  {
    hide IndexOk, TransfersOk, QueueOk, PreOk, TodoOk, WorkingOk, FilesOk, PartsOk, RecordOk;
  }

  /** A final file appears or changes in exactly one way: a finalized transfer's part file, whose hash is the manifest's
      and whose bytes are the source's, is published at its destination. */
  lemma PublishedIsVerified(w: World, c: Config, s: Sys, events: seq<Event>, n: nat, path: bytes)
    requires Init(w, s) && n < |events|
    ensures var r, q := Run(w, c, s, events, n).receiver, Run(w, c, s, events, n + 1).receiver;
            && (path in r.finals ==> path in q.finals)
            && (path in q.finals && (path !in r.finals || q.finals[path] != r.finals[path]) ==>
                  exists id :: id in r.transfers && PublishedFrom(w, r, q.finals[path], path, id))
  {
    RunOk(w, c, s, events, n);
    var u, e := Run(w, c, s, events, n), events[n];
    SysReceiver(w, u);
    var q := Step(w, c, u, e).receiver;
    assert Run(w, c, s, events, n + 1).receiver == q;
    hide Run, Init, SysInv, Inv, Step, Enabled, FinalizeBegin, OpenPart;
    if !e.BeginFinalize? {
      StepFiles(w, c, u, e);
    } else {
      BeginStep(w, c, u, e);
      if Enabled(w, u, e) {
        BeginChanges(w, u.history, c, u.receiver, e.id, e.fileTime, path);
      }
    }
  }

  lemma BeginChanges(w: World, h: History, c: Config, r: Receiver, id: bytes, fileTime: int, path: bytes)
    requires Inv(w, h, r) && r.queue != [] && id in r.transfers && r.transfers[id].part == r.queue[0].part
    ensures var q := FinalizeBegin(w.host, c, r, id, fileTime);
            && (path in r.finals ==> path in q.finals)
            && (path in q.finals && (path !in r.finals || q.finals[path] != r.finals[path]) ==>
                  PublishedFrom(w, r, q.finals[path], path, id))
  {
    hide Inv, FinalizeBegin;
    BeginFacts(w, h, c, r, id, fileTime);
  }

  ghost predicate PublishedFrom(w: World, r: Receiver, f: FinalFile, path: bytes, id: bytes)
    requires id in r.transfers
  {
    var t := r.transfers[id];
    t.finalized && t.dest == path && f.content == w.source(Sig(t)) && w.host.sha(f.content) == t.manifest.sha
  }

  /** A part file disappears only when no record of the journal on disk names it, and only as the part file of a
      finalized transfer. */
  lemma PartGoesAfterJournal(w: World, c: Config, s: Sys, events: seq<Event>, n: nat, p: bytes)
    requires Init(w, s) && n < |events|
    ensures var r, q := Run(w, c, s, events, n).receiver, Run(w, c, s, events, n + 1).receiver;
            p in r.parts && p !in q.parts ==>
              && (forall a :: a in r.journal ==> r.journal[a].part != p)
              && Finalizing(r.transfers, p)
  {
    RunOk(w, c, s, events, n);
    var u, e := Run(w, c, s, events, n), events[n];
    SysReceiver(w, u);
    var q := Step(w, c, u, e).receiver;
    assert Run(w, c, s, events, n + 1).receiver == q;
    hide Run, Init, SysInv, Inv, Step, Enabled, FinalizeBegin, OpenPart;
    if !e.BeginFinalize? {
      StepFiles(w, c, u, e);
    } else {
      BeginStep(w, c, u, e);
      if Enabled(w, u, e) {
        BeginFacts(w, u.history, c, u.receiver, e.id, e.fileTime);
        assert u.receiver.transfers[e.id].finalized;
      }
    }
  }

  /** Once a transfer is finalized its tracker is full, and no step changes the bytes of its part file. */
  lemma FinalizedIsFrozen(w: World, c: Config, s: Sys, events: seq<Event>, n: nat, id: bytes)
    requires Init(w, s) && n < |events|
    ensures var r, q := Run(w, c, s, events, n).receiver, Run(w, c, s, events, n + 1).receiver;
            id in r.transfers && r.transfers[id].finalized ==>
              var t := r.transfers[id];
              && t.received == AllOf(t)
              && (t.part in r.parts && t.part in q.parts ==> q.parts[t.part] == r.parts[t.part])
  {
    RunOk(w, c, s, events, n);
    var u, e := Run(w, c, s, events, n), events[n];
    SysReceiver(w, u);
    assert Run(w, c, s, events, n + 1) == Step(w, c, u, e);
    hide *;
    if id in u.receiver.transfers && u.receiver.transfers[id].finalized {
      FrozenStep(w, c, u, e, id);
    }
  }

  lemma FrozenStep(w: World, c: Config, u: Sys, e: Event, id: bytes)
    requires Inv(w, u.history, u.receiver) && id in u.receiver.transfers && u.receiver.transfers[id].finalized
    ensures var r, q, t := u.receiver, Step(w, c, u, e).receiver, u.receiver.transfers[id];
            && t.received == AllOf(t)
            && (t.part in r.parts && t.part in q.parts ==> q.parts[t.part] == r.parts[t.part])
  {
    var part := u.receiver.transfers[id].part;
    InvTransfer(w, u.history, u.receiver, id);
    if e.BeginFinalize? {
      BeginStep(w, c, u, e);
      hide Inv, Step, Enabled;
      if Enabled(w, u, e) {
        BeginFacts(w, u.history, c, u.receiver, e.id, e.fileTime);
      }
      hide FinalizeBegin;
    } else {
      NotOpen(w, u.history, u.receiver, id);
      StepFiles(w, c, u, e);
      hide Inv, Step, OpenPart;
    }
  }

  lemma BeginStep(w: World, c: Config, u: Sys, e: Event)
    requires e.BeginFinalize?
    ensures Step(w, c, u, e).receiver
         == if Enabled(w, u, e) then FinalizeBegin(w.host, c, u.receiver, e.id, e.fileTime) else u.receiver
    ensures Enabled(w, u, e) ==>
              && u.receiver.queue != [] && e.id in u.receiver.transfers
              && u.receiver.transfers[e.id].part == u.receiver.queue[0].part
  {
    StepReceiver(w, c, u, e);
    hide Step;
  }

  lemma NotOpen(w: World, h: History, r: Receiver, id: bytes)
    requires Inv(w, h, r) && id in r.transfers && r.transfers[id].finalized
    ensures !OpenPart(r, r.transfers[id].part)
  {
    DistinctParts(w, h, r);
    hide Inv;
  }

  /** In every reachable state the finalization queue holds full, finalized transfers only, each once, with its part file
      in place, none of them the one being finalized. */
  lemma QueuedOnce(w: World, c: Config, s: Sys, events: seq<Event>)
    requires Init(w, s)
    ensures var r := Run(w, c, s, events, |events|).receiver;
            && (forall k :: 0 <= k < |r.queue| ==> r.queue[k].missing == [] && Finalizing(r.transfers, r.queue[k].part))
            && (forall k :: 0 <= k < |r.queue| ==> r.queue[k].part in r.parts)
            && (forall k, l :: 0 <= k < l < |r.queue| ==> r.queue[k].part != r.queue[l].part)
            && (r.working.Some? ==> forall k :: 0 <= k < |r.queue| ==> r.queue[k].part != r.working.value.part)
  {
    RunOk(w, c, s, events, |events|);
    var t := Run(w, c, s, events, |events|);
    SysReceiver(w, t);
    hide Run, Init, SysInv, TransfersOk, JournalOk, IndexOk, PreOk, TodoOk, FilesOk, PartsOk, Finalizing;
  }

  // ---------------------------------------------------------------- removal after finalization

  /** Finalization removes the transfer if and only if no METADATA has moved it to another id since its first half: the
      removal uses the id read there. */
  lemma RemovedIff(w: World, h: History, c: Config, r: Receiver, now: real)
    requires Inv(w, h, r) && r.working.Some?
    ensures var v, q := r.working.value, FinalizeEnd(c, r, now).state;
            v.id in r.transfers <==> (forall id :: id in q.transfers ==> q.transfers[id].part != v.part)
  {
    var owner := VerdictIsOwned(w, h, r);
    DistinctParts(w, h, r);
    EndingShape(c, r, now);
    hide *;
    OwnerDecides(r, FinalizeEnd(c, r, now).state, owner);
  }

  lemma OwnerDecides(r: Receiver, q: Receiver, owner: bytes)
    requires r.working.Some? && EndShape(r, q)
    requires forall a, b :: a in r.transfers && b in r.transfers && r.transfers[a].part == r.transfers[b].part ==> a == b
    requires owner in r.transfers && r.transfers[owner].part == r.working.value.part
    requires r.working.value.id in r.transfers ==> r.working.value.id == owner
    ensures var v := r.working.value;
            v.id in r.transfers <==> (forall id :: id in q.transfers ==> q.transfers[id].part != v.part)
  {
    if r.working.value.id !in r.transfers {
      assert owner in q.transfers && q.transfers[owner].part == r.working.value.part;
    }
  }

  /** The transfer being finalized is registered, and an id it was read under is its own or nobody's. */
  lemma VerdictIsOwned(w: World, h: History, r: Receiver) returns (owner: bytes)
    requires Inv(w, h, r) && r.working.Some?
    ensures owner in r.transfers && r.transfers[owner].part == r.working.value.part
    ensures r.working.value.id in r.transfers ==> r.working.value.id == owner
  {
    var v := r.working.value;
    hide JournalOk, QueueOk, PreOk, TodoOk, FilesOk, PartsOk, Holds;
    owner :| owner in r.transfers && r.transfers[owner].part == v.part && r.transfers[owner].finalized;
    OneTransfer(w, h, r.parts, r.transfers, owner);
    if v.id in r.transfers {
      OneTransfer(w, h, r.parts, r.transfers, v.id);
      SameTransfer(w, h, r.transfers, r.index, r.parts, v.id, owner);
    }
  }
}
