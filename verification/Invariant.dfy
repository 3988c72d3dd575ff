/** The receiver's invariant, and the lemmas that every step keeps it. */
module Invariant {
  import opened Bytes
  import opened Ranges
  import opened Frames
  import opened Repair
  import opened PreMetadata
  import opened Pacing
  import opened ReceiverModel
  import opened Safety
  import Tracker

  // ---------------------------------------------------------------- the parts of the invariant

  type Transfers = map<bytes, Transfer>

  function Sig(t: Transfer): (g: Signature)
  {
    SignatureOf(t.manifest)
  }

  /** The signature index is the exact inverse of the transfers. */
  ghost predicate IndexOk(ts: Transfers, index: map<Signature, bytes>)
  {
    && (forall id :: id in ts ==> ts[id].manifest.id == id && Sig(ts[id]) in index && index[Sig(ts[id])] == id)
    && (forall g :: g in index ==> index[g] in ts && Sig(ts[index[g]]) == g)
  }

  function AllOf(t: Transfer): (s: set<int>)
  {
    Interval(0, t.manifest.totalChunks)
  }

  /** A transfer: honest, tied to its part file and destination, its tracker within the file; not finalized means the
      part file is there, finalized means the tracker is full; and what the tracker holds, the part file holds. */
  ghost predicate TransferOk(w: World, h: History, parts: map<bytes, bytes>, t: Transfer)
  {
    && Honest(w, t.manifest)
    && w.sigOf(t.part) == Sig(t) && w.host.dest(t.manifest.name) == Some(t.dest)
    && t.received <= AllOf(t)
    && (if t.finalized then t.received == AllOf(t) else t.part in parts && !t.done)
    && (t.part in parts ==> Holds(w, Sig(t), parts[t.part], t.received))
    && (t.done ==> Published(w, h, Sig(t)))
  }

  ghost predicate TransfersOk(w: World, h: History, ts: Transfers, parts: map<bytes, bytes>)
  {
    forall id :: id in ts ==> TransferOk(w, h, parts, ts[id])
  }

  /** A journal record: restoring it would give a transfer whose chunks the part file already holds. */
  ghost predicate RecordOk(w: World, parts: map<bytes, bytes>, id: bytes, r: Record)
  {
    && Honest(w, r.manifest) && r.manifest.id == id
    && w.sigOf(r.part) == SignatureOf(r.manifest) && w.host.dest(r.manifest.name).Some?
    && Canonical(r.received) && Elems(r.received) <= Interval(0, r.manifest.totalChunks)
    && r.part in parts && Holds(w, SignatureOf(r.manifest), parts[r.part], Elems(r.received))
  }

  /** The journal's records are sound, have distinct signatures, and name no finalized transfer's part file. */
  ghost predicate JournalOk(w: World, ts: Transfers, j: map<bytes, Record>, parts: map<bytes, bytes>)
  {
    && (forall id :: id in j ==> RecordOk(w, parts, id, j[id]))
    && (forall a, b :: a in j && b in j && a != b ==> SignatureOf(j[a].manifest) != SignatureOf(j[b].manifest))
    && (forall id, a :: id in ts && a in j && ts[id].finalized ==> ts[id].part != j[a].part)
  }

  ghost predicate PreOk(w: World, pre: Pre)
  {
    forall i, k :: 0 <= i < |pre.pending| && 0 <= k < |pre.pending[i].value.chunks| ==>
      HonestChunk(w, pre.pending[i].key, pre.pending[i].value.chunks[k].key, pre.pending[i].value.chunks[k].value)
  }

  ghost predicate TaskOk(w: World, ts: Transfers, task: Task)
  {
    match task
    case Register(m) => Honest(w, m)
    case Replay(id, index, payload) => HonestChunk(w, id, index, payload)
    case Queue(id, missing) => missing == [] && (id in ts ==> ts[id].received == AllOf(ts[id]))
    case Advertise(id) => true
  }

  ghost predicate TodoOk(w: World, ts: Transfers, todo: seq<Task>)
  {
    && (forall k :: 0 <= k < |todo| ==> TaskOk(w, ts, todo[k]))
    && (forall k :: 0 <= k < |todo| && todo[k].Register? ==> |todo| == 1)
  }

  /** Some registered transfer has this part file and is finalized. */
  ghost predicate Finalizing(ts: Transfers, part: bytes)
  {
    exists id :: id in ts && ts[id].part == part && ts[id].finalized
  }

  /** Queued finalizations: of full, finalized transfers, each queued once, part files in place. */
  ghost predicate QueueOk(ts: Transfers, parts: map<bytes, bytes>, queue: seq<Job>)
  {
    && (forall k :: 0 <= k < |queue| ==> queue[k].missing == [] && queue[k].part in parts && Finalizing(ts, queue[k].part))
    && (forall k, l :: 0 <= k < l < |queue| ==> queue[k].part != queue[l].part)
  }

  ghost predicate WorkingOk(w: World, h: History, ts: Transfers, queue: seq<Job>, working: Option<Verdict>)
  {
    working.Some? ==>
      var v := working.value;
      && v.missing == [] && w.sigOf(v.id) == w.sigOf(v.part) && |v.id| == ID_SIZE
      && Finalizing(ts, v.part)
      && (forall k :: 0 <= k < |queue| ==> queue[k].part != v.part)
      && (v.state.COMPLETE? ==> Published(w, h, w.sigOf(v.id)))
      && (v.cached.Some? ==> (v.dest, v.cached.value.sha) in h.seen)
  }

  ghost predicate FilesOk(w: World, h: History, finals: map<bytes, FinalFile>, cache: map<bytes, CacheEntry>)
  {
    && (forall p :: p in finals ==> (p, w.host.sha(finals[p].content)) in h.seen)
    && (forall p :: p in cache ==> (p, cache[p].sha) in h.seen)
  }

  ghost predicate Inv(w: World, h: History, r: Receiver)
  {
    && IndexOk(r.transfers, r.index)
    && TransfersOk(w, h, r.transfers, r.parts)
    && PartsOk(w, r.parts)
    && JournalOk(w, r.transfers, r.journal, r.parts)
    && PreOk(w, r.pre)
    && TodoOk(w, r.transfers, r.todo)
    && QueueOk(r.transfers, r.parts, r.queue)
    && WorkingOk(w, h, r.transfers, r.queue, r.working)
    && FilesOk(w, h, r.finals, r.cache)
  }

  /** A message an endpoint of the system sends. */
  ghost predicate MessageOk(w: World, h: History, m: Message)
  {
    match m
    case MetadataMsg(x) => Honest(w, x)
    case DataMsg(c) => |c.id| == ID_SIZE && HonestChunk(w, c.id, c.index, c.payload)
    case StatusMsg(s) =>
      && s.kind.TRANSFER? && |s.id| == ID_SIZE
      && (s.state.COMPLETE? ==> Published(w, h, w.sigOf(s.id)) || s.id in h.byTime)
    case BeaconMsg(b) => true
  }

  ghost predicate AllOk(w: World, h: History, ms: seq<Message>)
  {
    forall k :: 0 <= k < |ms| ==> MessageOk(w, h, ms[k])
  }

  // ---------------------------------------------------------------- history

  ghost predicate Later(h: History, k: History)
  {
    h.seen <= k.seen && h.byTime <= k.byTime
  }

  lemma LaterKeeps(w: World, h: History, k: History, r: Receiver)
    requires Inv(w, h, r) && Later(h, k)
    ensures Inv(w, k, r)
  {
    assert TransfersOk(w, k, r.transfers, r.parts) by {
      forall id | id in r.transfers ensures TransferOk(w, k, r.parts, r.transfers[id]) {
        assert TransferOk(w, h, r.parts, r.transfers[id]);
      }
    }
  }

  lemma LaterMessage(w: World, h: History, k: History, m: Message)
    requires MessageOk(w, h, m) && Later(h, k)
    ensures MessageOk(w, k, m)
  {
  }

  // ---------------------------------------------------------------- identity

  /** Equal signatures or equal part files mean the same transfer. */
  lemma SameTransfer(w: World, h: History, ts: Transfers, index: map<Signature, bytes>, parts: map<bytes, bytes>,
                     a: bytes, b: bytes)
    requires IndexOk(ts, index) && TransfersOk(w, h, ts, parts) && a in ts && b in ts
    ensures Sig(ts[a]) == Sig(ts[b]) ==> a == b
    ensures ts[a].part == ts[b].part ==> a == b
  {
    assert TransferOk(w, h, parts, ts[a]) && TransferOk(w, h, parts, ts[b]);
  }

  lemma OneTransfer(w: World, h: History, parts: map<bytes, bytes>, ts: Transfers, id: bytes)
    requires TransfersOk(w, h, ts, parts) && id in ts
    ensures TransferOk(w, h, parts, ts[id])
  {
  }

  // ---------------------------------------------------------------- a transfer changed in place

  /** `u` is the same object as `t`, with more chunks or other timers. */
  ghost predicate SameObject(t: Transfer, u: Transfer)
  {
    && u.manifest == t.manifest && u.part == t.part && u.dest == t.dest && u.finalized == t.finalized
    && u.done == t.done && t.received <= u.received
  }

  lemma FinalizingUpdate(ts: Transfers, id: bytes, u: Transfer, part: bytes)
    requires id in ts && Finalizing(ts, part) && u.part == ts[id].part && (ts[id].finalized ==> u.finalized)
    ensures Finalizing(ts[id := u], part)
  {
    var k :| k in ts && ts[k].part == part && ts[k].finalized;
    assert ts[id := u][k].part == part && ts[id := u][k].finalized;
  }

  lemma QueueUpdate(ts: Transfers, id: bytes, u: Transfer, parts: map<bytes, bytes>, queue: seq<Job>)
    requires id in ts && QueueOk(ts, parts, queue) && u.part == ts[id].part && (ts[id].finalized ==> u.finalized)
    ensures QueueOk(ts[id := u], parts, queue)
  {
    forall k | 0 <= k < |queue| ensures Finalizing(ts[id := u], queue[k].part) {
      FinalizingUpdate(ts, id, u, queue[k].part);
    }
  }

  lemma WorkingUpdate(w: World, h: History, ts: Transfers, id: bytes, u: Transfer, queue: seq<Job>,
                      working: Option<Verdict>)
    requires id in ts && WorkingOk(w, h, ts, queue, working)
    requires u.part == ts[id].part && (ts[id].finalized ==> u.finalized)
    ensures WorkingOk(w, h, ts[id := u], queue, working)
  {
    if working.Some? {
      FinalizingUpdate(ts, id, u, working.value.part);
    }
  }

  lemma IndexUpdate(ts: Transfers, index: map<Signature, bytes>, id: bytes, u: Transfer)
    requires IndexOk(ts, index) && id in ts && u.manifest == ts[id].manifest
    ensures IndexOk(ts[id := u], index)
  {
  }

  lemma JournalUpdate(w: World, ts: Transfers, j: map<bytes, Record>, parts: map<bytes, bytes>, id: bytes, u: Transfer)
    requires JournalOk(w, ts, j, parts) && id in ts && u.part == ts[id].part && u.finalized == ts[id].finalized
    ensures JournalOk(w, ts[id := u], j, parts)
  {
    hide RecordOk;
  }

  lemma TransfersUpdate(w: World, h: History, ts: Transfers, parts: map<bytes, bytes>, id: bytes, u: Transfer)
    requires TransfersOk(w, h, ts, parts) && TransferOk(w, h, parts, u)
    ensures TransfersOk(w, h, ts[id := u], parts)
  {
    hide TransferOk;
  }

  /** An object that gains chunks or changes its timers keeps the invariant. */
  lemma UpdateTransfer(w: World, h: History, r: Receiver, id: bytes, u: Transfer)
    requires Inv(w, h, r) && id in r.transfers && SameObject(r.transfers[id], u)
    requires TransferOk(w, h, r.parts, u)
    ensures Inv(w, h, r.(transfers := r.transfers[id := u]))
  {
    var ts := r.transfers;
    assert u.received <= AllOf(u);
    hide IndexOk, TransfersOk, TransferOk, JournalOk, QueueOk, WorkingOk, FilesOk, PreOk, TodoOk, PartsOk, AllOf;
    IndexUpdate(ts, r.index, id, u);
    TransfersUpdate(w, h, ts, r.parts, id, u);
    JournalUpdate(w, ts, r.journal, r.parts, id, u);
    QueueUpdate(ts, id, u, r.parts, r.queue);
    WorkingUpdate(w, h, ts, id, u, r.queue, r.working);
    TodoUpdate(w, ts, id, u, r.todo);
  }

  lemma TodoUpdate(w: World, ts: Transfers, id: bytes, u: Transfer, todo: seq<Task>)
    requires id in ts && TodoOk(w, ts, todo)
    requires u.manifest == ts[id].manifest && ts[id].received <= u.received <= AllOf(u)
    ensures TodoOk(w, ts[id := u], todo)
  {
    forall k | 0 <= k < |todo| ensures TaskOk(w, ts[id := u], todo[k]) {
      assert TaskOk(w, ts, todo[k]);
    }
  }

  // ---------------------------------------------------------------- data

  lemma PreKeeps(w: World, c: PreConfig, s: Pre, now: real, id: bytes, index: int, payload: bytes)
    requires PreOk(w, s) && HonestChunk(w, id, index, payload)
    ensures PreOk(w, Buffer(c, s, now, id, index, payload))
  {
    hide PreOk, HonestChunk, Store;
    if !Refused(c, index, payload) {
      PreRoom(w, c, s, now, id);
      hide WithRecord;
      PreStores(w, c, WithRecord(c, s, now, id), now, id, index, payload);
    }
  }

  lemma PreStores(w: World, c: PreConfig, s: Pre, now: real, id: bytes, index: int, payload: bytes)
    requires PreOk(w, s) && Has(s.pending, id) && HonestChunk(w, id, index, payload)
    ensures PreOk(w, Store(c, s, now, id, index, payload))
  {
    hide PreOk, HonestChunk, RecordHonest, Write, EvictForBytes;
    var rec := Get(s.pending, id);
    var delta := |payload| - Previous(rec, index);
    var (t, room) := EvictForBytes(c, s, id, delta);
    PreEvicts(w, c, s, id, delta);
    HeldHonest(w, s, id);
    PreWrite(w, t, now, id, rec, index, payload);
  }

  ghost predicate RecordHonest(w: World, id: bytes, rec: Pending)
  {
    forall k :: 0 <= k < |rec.chunks| ==> HonestChunk(w, id, rec.chunks[k].key, rec.chunks[k].value)
  }

  lemma HeldHonest(w: World, s: Pre, id: bytes)
    requires PreOk(w, s) && Has(s.pending, id)
    ensures RecordHonest(w, id, Get(s.pending, id))
  {
    hide HonestChunk;
  }

  lemma PreWrite(w: World, s: Pre, now: real, id: bytes, rec: Pending, index: int, payload: bytes)
    requires PreOk(w, s) && RecordHonest(w, id, rec) && HonestChunk(w, id, index, payload)
    ensures PreOk(w, Write(s, now, id, rec, index, payload))
  {
    hide HonestChunk, Previous;
    assert RecordHonest(w, id, rec.(chunks := Put(rec.chunks, index, payload)));
  }

  lemma PreDrop(w: World, s: Pre, id: bytes)
    requires PreOk(w, s)
    ensures PreOk(w, Drop(s, id))
  {
    if Has(s.pending, id) {
      var p, r := Position(s.pending, id, 0), Remove(s.pending, id);
      forall i | 0 <= i < |r| ensures r[i] == s.pending[if i < p then i else i + 1] {
      }
    }
  }

  lemma PreOldest(w: World, s: Pre)
    requires PreOk(w, s)
    ensures PreOk(w, EvictOldest(s))
  {
    if s.pending != [] {
      PreDrop(w, s, s.pending[Oldest(s.pending, |s.pending|)].key);
    }
  }

  lemma {:induction false} PreDropAll(w: World, s: Pre, ids: seq<bytes>, n: nat)
    requires PreOk(w, s) && n <= |ids|
    ensures PreOk(w, DropAll(s, ids, n))
  {
    hide PreOk;
    if n > 0 {
      PreDropAll(w, s, ids, n - 1);
      PreDrop(w, DropAll(s, ids, n - 1), ids[n - 1]);
    }
  }

  lemma PreExpire(w: World, c: PreConfig, s: Pre, now: real)
    requires PreOk(w, s)
    ensures PreOk(w, EvictExpired(c, s, now))
  {
    hide PreOk;
    if c.ttl > 0.0 {
      PreDropAll(w, s, ExpiredIds(c, s.pending, now, |s.pending|), |ExpiredIds(c, s.pending, now, |s.pending|)|);
    }
  }

  lemma {:induction false} PreCount(w: World, c: PreConfig, s: Pre)
    requires PreOk(w, s)
    ensures PreOk(w, EvictForCount(c, s))
    decreases |s.pending|
  {
    hide PreOk, EvictOldest;
    if |s.pending| >= c.maxTransfers && s.pending != [] {
      PreOldest(w, s);
      PreCount(w, c, EvictOldest(s));
    }
  }

  lemma {:induction false} PreEvicts(w: World, c: PreConfig, s: Pre, id: bytes, delta: int)
    requires PreOk(w, s)
    ensures PreOk(w, EvictForBytes(c, s, id, delta).0)
    decreases |s.pending|
  {
    hide PreOk, EvictOldest;
    if !(s.total + delta <= c.maxBytes || s.pending == [] || (|s.pending| == 1 && Has(s.pending, id))) {
      PreOldest(w, s);
      PreEvicts(w, c, EvictOldest(s), id, delta);
    }
  }

  lemma PreRoom(w: World, c: PreConfig, s: Pre, now: real, id: bytes)
    requires PreOk(w, s)
    ensures PreOk(w, WithRecord(c, s, now, id))
  {
    if !Has(s.pending, id) {
      PreExpire(w, c, s, now);
      PreCount(w, c, EvictExpired(c, s, now));
    }
  }

  lemma PoppedHonest(w: World, s: Pre, id: bytes, k: nat)
    requires PreOk(w, s) && k < |Popped(s, id)|
    ensures HonestChunk(w, id, Popped(s, id)[k].key, Popped(s, id)[k].value)
  {
    var p := Position(s.pending, id, 0);
    var d := s.pending[p].value.chunks;
    SortedByKeyMember(d, |d|, Popped(s, id)[k]);
    assert d[..|d|] == d;
    var j :| 0 <= j < |d| && d[j] == Popped(s, id)[k];
    assert s.pending[p].key == id;
  }

  /** The part files after an honest write into one of them. */
  lemma PartWrite(w: World, h: History, r: Receiver, p: bytes, id: bytes, index: int, payload: bytes)
    requires Inv(w, h, r) && p in r.parts && w.sigOf(p) == w.sigOf(id) && HonestChunk(w, id, index, payload)
    ensures Inv(w, h, r.(parts := WritePart(r.parts, p, index * w.sigOf(id).chunkSize, payload)))
    ensures p in WritePart(r.parts, p, index * w.sigOf(id).chunkSize, payload)
    ensures forall s :: Holds(w, w.sigOf(id), r.parts[p], s) ==>
              Holds(w, w.sigOf(id), WritePart(r.parts, p, index * w.sigOf(id).chunkSize, payload)[p], s + {index})
  {
    var g := w.sigOf(id);
    var start := index * g.chunkSize;
    var parts := WritePart(r.parts, p, start, payload);
    HonestLength(w, id, index, payload);
    assert |r.parts[p]| == g.size by {
      assert PartsOk(w, r.parts);
    }
    assert parts == r.parts[p := WriteAt(r.parts[p], start, payload)];
    forall s | Holds(w, g, r.parts[p], s) ensures Holds(w, g, parts[p], s + {index}) {
      HonestWrite(w, id, index, payload, r.parts[p], s);
    }
    PartWriteTransfers(w, h, r.transfers, r.parts, parts, p, g, index);
    PartWriteJournal(w, r.transfers, r.journal, r.parts, parts, p, g, index);
    assert PartsOk(w, parts);
    hide IndexOk, TransfersOk, JournalOk, WorkingOk, FilesOk, PreOk, TodoOk, PartsOk, Holds, HonestChunk, WritePart;
  }

  ghost predicate Improved(w: World, parts: map<bytes, bytes>, more: map<bytes, bytes>, p: bytes, g: Signature, index: int)
  {
    && p in parts && w.sigOf(p) == g && more.Keys == parts.Keys && (forall q :: q in parts && q != p ==> more[q] == parts[q])
    && (forall s :: Holds(w, g, parts[p], s) ==> Holds(w, g, more[p], s + {index}))
  }

  lemma ImprovedHolds(w: World, parts: map<bytes, bytes>, more: map<bytes, bytes>, p: bytes, g: Signature, index: int,
                      q: bytes, s: set<int>)
    requires Improved(w, parts, more, p, g, index) && q in parts && Holds(w, w.sigOf(q), parts[q], s)
    ensures Holds(w, w.sigOf(q), more[q], s)
  {
    if q == p {
      HoldsSubset(w, g, more[p], s + {index}, s);
    }
  }

  lemma PartWriteTransfers(w: World, h: History, ts: Transfers, parts: map<bytes, bytes>, more: map<bytes, bytes>,
                           p: bytes, g: Signature, index: int)
    requires TransfersOk(w, h, ts, parts) && Improved(w, parts, more, p, g, index)
    ensures TransfersOk(w, h, ts, more)
  {
    forall id | id in ts ensures TransferOk(w, h, more, ts[id]) {
      assert TransferOk(w, h, parts, ts[id]);
      hide Holds, Published, Honest;
      if ts[id].part in parts {
        ImprovedHolds(w, parts, more, p, g, index, ts[id].part, ts[id].received);
      }
    }
  }

  lemma PartWriteJournal(w: World, ts: Transfers, j: map<bytes, Record>, parts: map<bytes, bytes>,
                         more: map<bytes, bytes>, p: bytes, g: Signature, index: int)
    requires JournalOk(w, ts, j, parts) && Improved(w, parts, more, p, g, index)
    ensures JournalOk(w, ts, j, more)
  {
    forall id | id in j ensures RecordOk(w, more, id, j[id]) {
      assert RecordOk(w, parts, id, j[id]);
      hide Holds, Honest, Canonical, Elems;
      ImprovedHolds(w, parts, more, p, g, index, j[id].part, Elems(j[id].received));
    }
  }

  ghost predicate NoRegister(todo: seq<Task>)
  {
    forall k :: 0 <= k < |todo| ==> !todo[k].Register?
  }

  lemma AddTask(w: World, ts: Transfers, todo: seq<Task>, task: Task)
    requires TodoOk(w, ts, todo) && NoRegister(todo) && TaskOk(w, ts, task) && (task.Register? ==> todo == [])
    ensures TodoOk(w, ts, [task] + todo)
  {
  }

  /** Full by count means full. */
  lemma FullByCount(t: Transfer)
    requires t.received <= AllOf(t) && |t.received| >= t.manifest.totalChunks >= 0
    ensures t.received == AllOf(t)
  {
    IntervalSize(0, t.manifest.totalChunks);
    SubsetSize(t.received, AllOf(t));
  }

  lemma AcceptedOk(w: World, h: History, t: Transfer, u: Transfer, parts: map<bytes, bytes>, more: map<bytes, bytes>,
                   index: int)
    requires TransferOk(w, h, parts, t) && !t.finalized && 0 <= index < t.manifest.totalChunks
    requires u == t.(received := t.received + {index}, highest := u.highest, lastActivity := u.lastActivity,
                     lastData := u.lastData)
    requires t.part in more && Holds(w, Sig(t), more[t.part], t.received + {index})
    ensures TransferOk(w, h, more, u) && SameObject(t, u)
  {
    hide Holds, Honest, Published;
  }

  /** `_accept_data`, on honest data, keeps the invariant. */
  lemma AcceptDataOk(w: World, h: History, c: Config, r: Receiver, now: real, id: bytes, index: int, payload: bytes)
    requires Inv(w, h, r) && HonestChunk(w, id, index, payload) && NoRegister(r.todo)
    ensures Inv(w, h, AcceptData(c, r, now, id, index, payload))
  {
    if id !in r.transfers {
      PreKeeps(w, c.pre, r.pre, now, id, index, payload);
      hide IndexOk, TransfersOk, JournalOk, QueueOk, WorkingOk, FilesOk, PreOk, TodoOk, PartsOk, HonestChunk;
    } else {
      var t := r.transfers[id];
      OneTransfer(w, h, r.parts, r.transfers, id);
      assert t.manifest.id == id && w.sigOf(id) == Sig(t) && w.sigOf(t.part) == Sig(t);
      var start := index * t.manifest.chunkSize;
      if !(t.done || t.finalized || index >= t.manifest.totalChunks || start + |payload| > t.manifest.fileSize) {
        assert 0 <= index && t.part in r.parts && Holds(w, Sig(t), r.parts[t.part], t.received);
        AcceptInto(w, h, c, r, now, id, index, payload);
      }
    }
  }

  /** The receiver takes the chunk: it is honest, and the transfer it is for is there, open, and has room for it. */
  ghost predicate TakesChunk(w: World, h: History, r: Receiver, id: bytes, index: int, payload: bytes)
  {
    && Inv(w, h, r) && HonestChunk(w, id, index, payload) && NoRegister(r.todo)
    && id in r.transfers && 0 <= index < r.transfers[id].manifest.totalChunks
    && var t := r.transfers[id];
       && TransferOk(w, h, r.parts, t) && !t.finalized && !t.done && t.part in r.parts
       && w.sigOf(id) == Sig(t) == w.sigOf(t.part)
       && index * t.manifest.chunkSize + |payload| <= t.manifest.fileSize
  }

  /** The state with the chunk's bytes in the part file and its index in the tracker. */
  function WithChunk(r: Receiver, now: real, id: bytes, index: int, payload: bytes): (q: Receiver)
    requires id in r.transfers
  {
    var t := r.transfers[id];
    var u := t.(received := t.received + {index}, highest := Max(t.highest, index), lastActivity := now, lastData := now);
    r.(parts := WritePart(r.parts, t.part, index * t.manifest.chunkSize, payload), transfers := r.transfers[id := u])
  }

  lemma AcceptInto(w: World, h: History, c: Config, r: Receiver, now: real, id: bytes, index: int, payload: bytes)
    requires TakesChunk(w, h, r, id, index, payload)
    ensures Inv(w, h, AcceptData(c, r, now, id, index, payload))
  {
    AcceptIs(w, h, c, r, now, id, index, payload);
    GrownOk(w, h, r, now, id, index, payload);
    hide AcceptData, TakesChunk, Inv, NoRegister, WithChunk, AllOf;
    var grown := WithChunk(r, now, id, index, payload);
    var full := FullTracker(grown.transfers[id]);
    if full {
      FullByCount(grown.transfers[id]);
    }
    var todo := (if full then [Queue(id, [])] else []) + r.todo;
    NextTasks(w, h, grown, id, todo, full);
    AnyDirty(w, h, grown.(todo := todo), AcceptData(c, r, now, id, index, payload).dirty);
  }

  predicate FullTracker(t: Transfer)
  {
    t.manifest.totalChunks > 0 && |t.received| >= t.manifest.totalChunks
  }

  lemma AcceptIs(w: World, h: History, c: Config, r: Receiver, now: real, id: bytes, index: int, payload: bytes)
    requires TakesChunk(w, h, r, id, index, payload)
    ensures id in r.transfers && NoRegister(r.todo) && WithChunk(r, now, id, index, payload).todo == r.todo
    ensures var g, q := WithChunk(r, now, id, index, payload), AcceptData(c, r, now, id, index, payload);
            q == g.(todo := (if FullTracker(g.transfers[id]) then [Queue(id, [])] else []) + r.todo, dirty := q.dirty)
  {
    hide Inv, TransferOk, HonestChunk, NoRegister, WritePart;
  }

  lemma FullTask(w: World, ts: Transfers, id: bytes)
    requires id in ts ==> ts[id].received == AllOf(ts[id])
    ensures TaskOk(w, ts, Queue(id, []))
  {
  }

  lemma AnyDirty(w: World, h: History, r: Receiver, dirty: bool)
    requires Inv(w, h, r)
    ensures Inv(w, h, r.(dirty := dirty))
  {
    hide IndexOk, TransfersOk, JournalOk, QueueOk, WorkingOk, FilesOk, PreOk, PartsOk, TodoOk;
  }

  lemma NextTasks(w: World, h: History, r: Receiver, id: bytes, todo: seq<Task>, full: bool)
    requires Inv(w, h, r) && id in r.transfers && NoRegister(r.todo)
    requires todo == (if full then [Queue(id, [])] else []) + r.todo
    requires full ==> r.transfers[id].received == AllOf(r.transfers[id])
    ensures Inv(w, h, r.(todo := todo))
  {
    hide IndexOk, TransfersOk, JournalOk, QueueOk, WorkingOk, FilesOk, PreOk, PartsOk, TodoOk, AllOf, NoRegister;
    if full {
      FullTask(w, r.transfers, id);
      AddTask(w, r.transfers, r.todo, Queue(id, []));
    } else {
      assert [] + r.todo == r.todo;
    }
  }

  /** The bytes and the tracker of an accepted chunk keep the invariant. */
  lemma GrownOk(w: World, h: History, r: Receiver, now: real, id: bytes, index: int, payload: bytes)
    requires TakesChunk(w, h, r, id, index, payload)
    ensures id in r.transfers
    ensures var q := WithChunk(r, now, id, index, payload);
            Inv(w, h, q) && id in q.transfers && q.transfers[id].received <= AllOf(q.transfers[id])
  {
    var t := r.transfers[id];
    var u := t.(received := t.received + {index}, highest := Max(t.highest, index), lastActivity := now, lastData := now);
    var more := WritePart(r.parts, t.part, index * t.manifest.chunkSize, payload);
    hide Inv, HonestChunk, WritePart, Holds, Honest, Published;
    PartWrite(w, h, r, t.part, id, index, payload);
    AcceptedOk(w, h, t, u, r.parts, more, index);
    assert u.received <= AllOf(u);
    hide TransferOk, AllOf;
    UpdateTransfer(w, h, r.(parts := more), id, u);
    assert r.(parts := more).(transfers := r.transfers[id := u]) == WithChunk(r, now, id, index, payload);
  }

  // ---------------------------------------------------------------- journal

  lemma RecordFromTransfer(w: World, h: History, parts: map<bytes, bytes>, id: bytes, t: Transfer)
    requires TransferOk(w, h, parts, t) && !t.finalized && t.manifest.id == id
    ensures RecordOk(w, parts, id, RecordOf(t)) && Elems(ReceivedOf(t)) == t.received
  {
    var n := t.manifest.totalChunks;
    TotalNat(t.manifest);
    RangesBelowMeaning(t.received, n);
    assert t.received * Interval(0, n) == t.received;
    hide Holds, Canonical, Elems, RangesBelow;
  }

  lemma TotalNat(m: Manifest)
    requires ManifestOk(m)
    ensures m.totalChunks >= 0 && m.fileSize >= 0 && m.chunkSize > 0
    ensures m.totalChunks == ExpectedChunks(m.fileSize, m.chunkSize)
    ensures m.totalChunks == 0 <==> m.fileSize == 0
  {
    ChunkInside(m.fileSize, m.chunkSize, 0);
  }

  /** Saving the journal makes it sound. */
  lemma SaveOk(w: World, h: History, ts: Transfers, index: map<Signature, bytes>, parts: map<bytes, bytes>)
    requires IndexOk(ts, index) && TransfersOk(w, h, ts, parts)
    ensures JournalOk(w, ts, JournalOf(ts), parts)
  {
    var j := JournalOf(ts);
    forall id | id in j ensures RecordOk(w, parts, id, j[id]) {
      OneTransfer(w, h, parts, ts, id);
      RecordFromTransfer(w, h, parts, id, ts[id]);
    }
    forall a, b | a in j && b in j && a != b ensures SignatureOf(j[a].manifest) != SignatureOf(j[b].manifest) {
      SameTransfer(w, h, ts, index, parts, a, b);
    }
    forall id, a | id in ts && a in j && ts[id].finalized ensures ts[id].part != j[a].part {
      SameTransfer(w, h, ts, index, parts, id, a);
    }
  }

  lemma FlushOk(w: World, h: History, c: Config, r: Receiver, now: real, force: bool)
    requires Inv(w, h, r)
    ensures Inv(w, h, Flush(c, r, now, force))
  {
    SaveOk(w, h, r.transfers, r.index, r.parts);
    hide IndexOk, TransfersOk, JournalOk, QueueOk, WorkingOk, FilesOk, PreOk, TodoOk, PartsOk, JournalOf;
  }

  // ---------------------------------------------------------------- finalization

  lemma FinalizedOk(w: World, h: History, parts: map<bytes, bytes>, t: Transfer)
    requires TransferOk(w, h, parts, t) && t.received == AllOf(t)
    ensures TransferOk(w, h, parts, t.(finalized := true))
  {
    hide Holds, Honest, Published;
  }

  lemma EnqueueOk(w: World, h: History, r: Receiver, id: bytes)
    requires Inv(w, h, r) && id in r.transfers && !r.transfers[id].finalized
    ensures var t := r.transfers[id];
            var ts := r.transfers[id := t.(finalized := true)];
            && QueueOk(ts, r.parts, r.queue + [Job(t.part, [])])
            && WorkingOk(w, h, ts, r.queue + [Job(t.part, [])], r.working)
  {
    var ts, t := r.transfers, r.transfers[id];
    var u := t.(finalized := true);
    OneTransfer(w, h, r.parts, ts, id);
    hide IndexOk, TransfersOk, JournalOk, FilesOk, PreOk, PartsOk, TodoOk, QueueOk, WorkingOk, Finalizing, Holds, Honest;
    QueueUpdate(ts, id, u, r.parts, r.queue);
    WorkingUpdate(w, h, ts, id, u, r.queue, r.working);
    NotFinalizing(w, h, r, id);
    assert Finalizing(ts[id := u], t.part) by {
      IsFinalizing(ts[id := u], id);
    }
    AppendJob(w, h, ts, ts[id := u], r.parts, r.queue, r.working, t.part);
  }

  lemma IsFinalizing(ts: Transfers, id: bytes)
    requires id in ts && ts[id].finalized
    ensures Finalizing(ts, ts[id].part)
  {
  }

  lemma NotFinalizing(w: World, h: History, r: Receiver, id: bytes)
    requires Inv(w, h, r) && id in r.transfers && !r.transfers[id].finalized
    ensures !Finalizing(r.transfers, r.transfers[id].part)
  {
    DistinctParts(w, h, r);
    hide Inv;
  }

  lemma AppendJob(w: World, h: History, ts: Transfers, us: Transfers, parts: map<bytes, bytes>, queue: seq<Job>,
                  working: Option<Verdict>, part: bytes)
    requires QueueOk(ts, parts, queue) && QueueOk(us, parts, queue)
    requires WorkingOk(w, h, ts, queue, working) && WorkingOk(w, h, us, queue, working)
    requires part in parts && Finalizing(us, part) && !Finalizing(ts, part)
    ensures QueueOk(us, parts, queue + [Job(part, [])]) && WorkingOk(w, h, us, queue + [Job(part, [])], working)
  {
    hide Finalizing, Published;
  }

  /** `_queue_finalization` of a full transfer. */
  lemma QueueFinalizationOk(w: World, h: History, c: Config, r: Receiver, now: real, id: bytes)
    requires Inv(w, h, r) && (id in r.transfers ==> r.transfers[id].received == AllOf(r.transfers[id]))
    ensures Inv(w, h, QueueFinalization(c, r, now, id, []))
  {
    if id in r.transfers && !r.transfers[id].finalized {
      var t := r.transfers[id];
      var u := t.(finalized := true);
      var ts := r.transfers[id := u];
      OneTransfer(w, h, r.parts, r.transfers, id);
      FinalizedOk(w, h, r.parts, t);
      EnqueueOk(w, h, r, id);
      IndexUpdate(r.transfers, r.index, id, u);
      TransfersUpdate(w, h, r.transfers, r.parts, id, u);
      TodoUpdate(w, r.transfers, id, u, r.todo);
      SaveOk(w, h, ts, r.index, r.parts);
      hide IndexOk, TransfersOk, TransferOk, JournalOk, QueueOk, WorkingOk, FilesOk, PreOk, TodoOk, PartsOk, JournalOf;
    }
  }

  /** Everything that has a final file has been seen. */
  ghost predicate SeesFinals(w: World, h: History, r: Receiver)
  {
    forall p :: p in r.finals ==> (p, w.host.sha(r.finals[p].content)) in h.seen
  }

  lemma OwnerOfPart(w: World, h: History, r: Receiver, id: bytes, part: bytes)
    requires Inv(w, h, r) && id in r.transfers && r.transfers[id].part == part && Finalizing(r.transfers, part)
    ensures r.transfers[id].finalized && TransferOk(w, h, r.parts, r.transfers[id])
  {
    var k :| k in r.transfers && r.transfers[k].part == part && r.transfers[k].finalized;
    SameTransfer(w, h, r.transfers, r.index, r.parts, k, id);
  }

  /** The part file of a finalized transfer can go: nothing else relies on it. */
  lemma PartGone(w: World, h: History, r: Receiver, id: bytes)
    requires Inv(w, h, r) && id in r.transfers && r.transfers[id].finalized
    ensures var part := r.transfers[id].part;
            && TransfersOk(w, h, r.transfers, r.parts - {part})
            && PartsOk(w, r.parts - {part})
            && JournalOk(w, r.transfers, r.journal, r.parts - {part})
  {
    DistinctParts(w, h, r);
    TransfersWithout(w, h, r, id);
    JournalWithout(w, h, r, id);
    hide IndexOk, TransfersOk, JournalOk, FilesOk, PreOk, TodoOk, QueueOk, WorkingOk;
  }

  lemma TransfersWithout(w: World, h: History, r: Receiver, id: bytes)
    requires Inv(w, h, r) && id in r.transfers && r.transfers[id].finalized
    ensures TransfersOk(w, h, r.transfers, r.parts - {r.transfers[id].part})
  {
    DistinctParts(w, h, r);
    assert TransfersOk(w, h, r.transfers, r.parts);
    hide Inv;
    forall k | k in r.transfers ensures TransferOk(w, h, r.parts - {r.transfers[id].part}, r.transfers[k]) {
      OneTransfer(w, h, r.parts, r.transfers, k);
      hide Holds, Honest, Published, TransfersOk;
    }
  }

  lemma JournalWithout(w: World, h: History, r: Receiver, id: bytes)
    requires Inv(w, h, r) && id in r.transfers && r.transfers[id].finalized
    ensures JournalOk(w, r.transfers, r.journal, r.parts - {r.transfers[id].part})
  {
    hide Inv, RecordOk;
    InvJournal(w, h, r);
    forall a | a in r.journal ensures RecordOk(w, r.parts - {r.transfers[id].part}, a, r.journal[a]) {
      RecordWithout(w, r.parts, r.transfers[id].part, a, r.journal[a]);
    }
  }

  lemma InvJournal(w: World, h: History, r: Receiver)
    requires Inv(w, h, r)
    ensures JournalOk(w, r.transfers, r.journal, r.parts)
  {
    hide JournalOk;
  }

  lemma RecordWithout(w: World, parts: map<bytes, bytes>, part: bytes, a: bytes, rec: Record)
    requires RecordOk(w, parts, a, rec) && rec.part != part
    ensures RecordOk(w, parts - {part}, a, rec)
  {
    hide Holds, Honest, Canonical, Elems;
  }

  lemma QueueTail(ts: Transfers, parts: map<bytes, bytes>, queue: seq<Job>)
    requires QueueOk(ts, parts, queue) && queue != []
    ensures QueueOk(ts, parts, queue[1..]) && QueueOk(ts, parts - {queue[0].part}, queue[1..])
    ensures forall k :: 0 <= k < |queue[1..]| ==> queue[1..][k].part != queue[0].part
    ensures queue[0].missing == [] && queue[0].part in parts && Finalizing(ts, queue[0].part)
  {
  }

  lemma BegunWorking(w: World, k: History, ts: Transfers, queue: seq<Job>, v: Verdict, t: Transfer)
    requires TransferOk(w, k, map[], t) && v.missing == [] && v.id == t.manifest.id && v.part == t.part
    requires Finalizing(ts, v.part) && (forall i :: 0 <= i < |queue| ==> queue[i].part != v.part)
    requires v.state.COMPLETE? ==> (t.dest, t.manifest.sha) in k.seen
    requires v.cached.Some? ==> v.dest == t.dest && v.state.COMPLETE? && v.cached.value.sha == t.manifest.sha
    ensures WorkingOk(w, k, ts, queue, Some(v))
  {
    hide Finalizing;
  }

  lemma NoPart(w: World, h: History, parts: map<bytes, bytes>, t: Transfer)
    requires TransferOk(w, h, parts, t) && t.finalized
    ensures TransferOk(w, h, map[], t)
  {
    hide Holds, Honest, Published;
  }

  /** The first half of a finalization: publication only of a part file with the manifest's hash. */
  lemma FinalizeBeginOk(w: World, h: History, k: History, c: Config, r: Receiver, id: bytes, fileTime: int)
    requires Inv(w, h, r) && r.queue != [] && id in r.transfers && r.transfers[id].part == r.queue[0].part
    requires Later(h, k) && SeesFinals(w, k, FinalizeBegin(w.host, c, r, id, fileTime))
    ensures Inv(w, k, FinalizeBegin(w.host, c, r, id, fileTime))
  {
    var t, q := r.transfers[id], FinalizeBegin(w.host, c, r, id, fileTime);
    FinalizeBeginFacts(w, h, k, r, id);
    LaterKeeps(w, h, k, r);
    PartGone(w, k, r, id);
    BeginCases(w.host, c, r, id, fileTime);
    hide IndexOk, TransfersOk, TransferOk, JournalOk, QueueOk, PreOk, TodoOk, PartsOk, Finalizing, WorkingOk, FinalizeBegin,
         FilesOk;
    if q.working.value.state.COMPLETE? {
      assert (t.dest, t.manifest.sha) in k.seen;
    }
    BegunWorking(w, k, r.transfers, r.queue[1..], q.working.value, t);
    BegunFiles(w, h, k, r, q);
  }

  /** The first half of a finalization of a full transfer, case by case. */
  lemma BeginCases(h: Host, c: Config, r: Receiver, id: bytes, fileTime: int)
    requires r.queue != [] && id in r.transfers && r.transfers[id].part == r.queue[0].part
    requires r.queue[0].missing == [] && r.transfers[id].part in r.parts
    ensures var t, q := r.transfers[id], FinalizeBegin(h, c, r, id, fileTime);
            && q == r.(queue := r.queue[1..], parts := q.parts, finals := q.finals, working := q.working)
            && (q.parts == r.parts || q.parts == r.parts - {t.part})
            && q.working.Some?
            && var v := q.working.value;
               && v.id == id && v.part == t.part && v.dest == t.dest && v.missing == []
               && (v.state.COMPLETE? ==> t.dest in q.finals && h.sha(q.finals[t.dest].content) == t.manifest.sha)
               && (v.cached.Some? ==> v.state.COMPLETE? && v.cached.value.sha == t.manifest.sha)
  {
    hide SourceMtime;
    if h.sha(r.parts[r.transfers[id].part]) != r.transfers[id].manifest.sha {
    } else {
    }
  }

  lemma BegunFiles(w: World, h: History, k: History, r: Receiver, q: Receiver)
    requires Inv(w, h, r) && Later(h, k) && SeesFinals(w, k, q) && q.cache == r.cache
    ensures FilesOk(w, k, q.finals, q.cache)
  {
  }

  lemma FinalizeBeginFacts(w: World, h: History, k: History, r: Receiver, id: bytes)
    requires Inv(w, h, r) && r.queue != [] && id in r.transfers && r.transfers[id].part == r.queue[0].part
    requires Later(h, k)
    ensures var t := r.transfers[id];
            && t.finalized && t.manifest.id == id && TransferOk(w, k, map[], t)
            && r.queue[0].missing == [] && t.part in r.parts && Finalizing(r.transfers, t.part)
            && QueueOk(r.transfers, r.parts, r.queue[1..]) && QueueOk(r.transfers, r.parts - {t.part}, r.queue[1..])
            && (forall i :: 0 <= i < |r.queue[1..]| ==> r.queue[1..][i].part != t.part)
  {
    var t := r.transfers[id];
    QueueTail(r.transfers, r.parts, r.queue);
    LaterKeeps(w, h, k, r);
    OwnerOfPart(w, k, r, id, t.part);
    NoPart(w, k, r.parts, t);
    hide TransfersOk, TransferOk, JournalOk, QueueOk, PreOk, TodoOk, PartsOk, Finalizing, WorkingOk;
  }

  lemma MarkedOk(w: World, h: History, ts: Transfers, parts: map<bytes, bytes>, v: Verdict)
    requires TransfersOk(w, h, ts, parts) && Finalizing(ts, v.part)
    requires forall a, b :: a in ts && b in ts && ts[a].part == ts[b].part ==> a == b
    requires v.state.COMPLETE? ==> Published(w, h, w.sigOf(v.part))
    ensures TransfersOk(w, h, MarkDone(ts, v.part, v.state.COMPLETE?), parts)
  {
    var ms := MarkDone(ts, v.part, v.state.COMPLETE?);
    var owner :| owner in ts && ts[owner].part == v.part && ts[owner].finalized;
    forall id | id in ms ensures TransferOk(w, h, parts, ms[id]) {
      assert TransferOk(w, h, parts, ts[id]);
      hide Holds, Honest;
      assert ts[id].part == v.part ==> id == owner;
    }
  }

  lemma DistinctParts(w: World, h: History, r: Receiver)
    requires Inv(w, h, r)
    ensures forall a, b :: a in r.transfers && b in r.transfers && r.transfers[a].part == r.transfers[b].part ==> a == b
  {
    forall a, b | a in r.transfers && b in r.transfers && r.transfers[a].part == r.transfers[b].part ensures a == b {
      SameTransfer(w, h, r.transfers, r.index, r.parts, a, b);
    }
  }

  lemma WithoutOk(ts: Transfers, index: map<Signature, bytes>, id: bytes)
    requires IndexOk(ts, index) && id in ts
    ensures IndexOk(ts - {id}, WithoutIndex(index, Sig(ts[id]), id))
  {
  }

  lemma MarkedIndex(ts: Transfers, index: map<Signature, bytes>, part: bytes, done: bool)
    requires IndexOk(ts, index)
    ensures IndexOk(MarkDone(ts, part, done), index)
  {
  }

  /** The transfer a verdict is about is the only one its id can name. */
  lemma VerdictOwner(w: World, h: History, r: Receiver, v: Verdict, id: bytes)
    requires Inv(w, h, r) && r.working == Some(v) && v.id in r.transfers
    requires id in r.transfers && r.transfers[id].part != v.part
    ensures id != v.id
  {
    var ts := r.transfers;
    var owner :| owner in ts && ts[owner].part == v.part && ts[owner].finalized;
    OneTransfer(w, h, r.parts, ts, owner);
    OneTransfer(w, h, r.parts, ts, v.id);
    SameTransfer(w, h, ts, r.index, r.parts, v.id, owner);
  }

  /** Removing the transfer under the verdict's id takes nobody else's finalization away. */
  lemma RemovedFinalizing(w: World, h: History, r: Receiver, v: Verdict, part: bytes)
    requires Inv(w, h, r) && r.working == Some(v) && Finalizing(r.transfers, part) && part != v.part
    ensures Finalizing(MarkDone(r.transfers, v.part, v.state.COMPLETE?) - {v.id}, part)
  {
    hide Inv;
    var ts, us := r.transfers, MarkDone(r.transfers, v.part, v.state.COMPLETE?) - {v.id};
    var id :| id in ts && ts[id].part == part && ts[id].finalized;
    if v.id in ts {
      VerdictOwner(w, h, r, v, id);
    }
    assert us[id] == ts[id];
    IsFinalizing(us, id);
  }

  lemma RemovedQueue(w: World, h: History, r: Receiver, v: Verdict)
    requires Inv(w, h, r) && r.working == Some(v)
    ensures QueueOk(MarkDone(r.transfers, v.part, v.state.COMPLETE?) - {v.id}, r.parts, r.queue)
  {
    forall k | 0 <= k < |r.queue|
      ensures Finalizing(MarkDone(r.transfers, v.part, v.state.COMPLETE?) - {v.id}, r.queue[k].part)
    {
      assert Finalizing(r.transfers, r.queue[k].part) && r.queue[k].part != v.part;
      RemovedFinalizing(w, h, r, v, r.queue[k].part);
    }
    hide IndexOk, TransfersOk, JournalOk, PreOk, TodoOk, PartsOk, Finalizing, MarkDone;
  }

  lemma TodoWithout(w: World, ts: Transfers, us: Transfers, todo: seq<Task>)
    requires TodoOk(w, ts, todo)
    requires forall id :: id in us ==> id in ts && us[id].manifest == ts[id].manifest && us[id].received == ts[id].received
    ensures TodoOk(w, us, todo)
  {
    forall k | 0 <= k < |todo| ensures TaskOk(w, us, todo[k]) {
      assert TaskOk(w, ts, todo[k]);
    }
  }

  lemma MarkedTransfers(w: World, h: History, r: Receiver, v: Verdict)
    requires Inv(w, h, r) && r.working == Some(v)
    ensures TransfersOk(w, h, MarkDone(r.transfers, v.part, v.state.COMPLETE?), r.parts)
  {
    assert Finalizing(r.transfers, v.part) && (v.state.COMPLETE? ==> Published(w, h, w.sigOf(v.part)));
    DistinctParts(w, h, r);
    hide Inv, IndexOk, JournalOk, QueueOk, Finalizing, Published;
    MarkedOk(w, h, r.transfers, r.parts, v);
  }

  lemma MarkedTodo(w: World, ts: Transfers, todo: seq<Task>, v: Verdict)
    requires TodoOk(w, ts, todo)
    ensures TodoOk(w, MarkDone(ts, v.part, v.state.COMPLETE?) - {v.id}, todo)
  {
    hide TodoOk;
    TodoWithout(w, ts, MarkDone(ts, v.part, v.state.COMPLETE?) - {v.id}, todo);
  }

  lemma WithoutTransfer(w: World, h: History, ts: Transfers, index: map<Signature, bytes>, parts: map<bytes, bytes>,
                        id: bytes)
    requires IndexOk(ts, index) && TransfersOk(w, h, ts, parts)
    ensures TransfersOk(w, h, ts - {id}, parts)
    ensures IndexOk(ts - {id}, if id in ts then WithoutIndex(index, Sig(ts[id]), id) else index)
  {
    hide TransferOk;
    if id in ts {
      WithoutOk(ts, index, id);
    } else {
      assert ts - {id} == ts;
    }
  }

  /** The transfers, index and journal after the removal. */
  lemma RemovedOk(w: World, h: History, r: Receiver, v: Verdict)
    requires Inv(w, h, r) && r.working == Some(v)
    ensures var ms := MarkDone(r.transfers, v.part, v.state.COMPLETE?);
            var index := if v.id in ms then WithoutIndex(r.index, Sig(ms[v.id]), v.id) else r.index;
            && IndexOk(ms - {v.id}, index) && TransfersOk(w, h, ms - {v.id}, r.parts)
            && JournalOk(w, ms - {v.id}, JournalOf(ms - {v.id}), r.parts)
            && TodoOk(w, ms - {v.id}, r.todo)
  {
    var ms := MarkDone(r.transfers, v.part, v.state.COMPLETE?);
    hide IndexOk, TransfersOk, JournalOk, QueueOk, WorkingOk, FilesOk, PreOk, TodoOk, PartsOk, JournalOf, MarkDone,
         WithoutIndex;
    MarkedTransfers(w, h, r, v);
    MarkedIndex(r.transfers, r.index, v.part, v.state.COMPLETE?);
    MarkedTodo(w, r.transfers, r.todo, v);
    WithoutTransfer(w, h, ms, r.index, r.parts, v.id);
    SaveOk(w, h, ms - {v.id}, if v.id in ms then WithoutIndex(r.index, Sig(ms[v.id]), v.id) else r.index, r.parts);
  }

  /** The second half of a finalization. */
  lemma FinalizeEndOk(w: World, h: History, c: Config, r: Receiver, now: real)
    requires Inv(w, h, r) && r.working.Some?
    ensures Inv(w, h, FinalizeEnd(c, r, now).state) && AllOk(w, h, FinalizeEnd(c, r, now).sent)
  {
    hide IndexOk, TransfersOk, JournalOk, QueueOk, PreOk, TodoOk, PartsOk, Finalizing, Published, JournalOf, MarkDone,
         WithoutIndex;
    RemovedOk(w, h, r, r.working.value);
    RemovedQueue(w, h, r, r.working.value);
  }
}
