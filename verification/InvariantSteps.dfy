/** The remaining steps of the receiver keep the invariant: METADATA, the timers, and crash with restart. */
module InvariantSteps {
  import opened Bytes
  import opened Ranges
  import opened Frames
  import opened Repair
  import opened PreMetadata
  import opened Pacing
  import opened ReceiverModel
  import opened Shapes
  import opened Safety
  import opened Invariant
  import Tracker

  // ---------------------------------------------------------------- answers

  /** An advertised COMPLETE speaks of a published file. */
  lemma AdvertiseOk(w: World, h: History, c: Config, t: Transfer, now: real)
    requires Honest(w, t.manifest) && (t.done ==> Published(w, h, Sig(t)))
    ensures AllOk(w, h, AdvertiseState(c, t, now))
  {
    hide Published;
  }

  // ---------------------------------------------------------------- metadata before the lock

  /** The file that answers a manifest has been there with the manifest's hash, unless only size and time agreed. */
  lemma MatchPublished(w: World, h: History, r: Receiver, m: Manifest, dest: bytes)
    requires Inv(w, h, r) && Honest(w, m) && w.host.dest(m.name) == Some(dest)
    ensures Matching(w.host, r, dest, m).ByCache? || Matching(w.host, r, dest, m).ByHash? || RightThere(w, r, m) ==>
              Published(w, h, w.sigOf(m.id))
  {
    assert FilesOk(w, h, r.finals, r.cache);
    hide IndexOk, TransfersOk, JournalOk, QueueOk, PreOk, TodoOk, PartsOk, WorkingOk;
  }

  /** The file at the destination has the manifest's hash. */
  ghost predicate RightThere(w: World, r: Receiver, m: Manifest)
  {
    var dest := w.host.dest(m.name);
    dest.Some? && dest.value in r.finals && w.host.sha(r.finals[dest.value].content) == m.sha
  }

  /** The ids answered by size and time alone for a file with another hash. */
  ghost function TimeAnswers(w: World, r: Receiver, m: Manifest): (s: set<bytes>)
  {
    if w.host.dest(m.name).Some? && Matching(w.host, r, w.host.dest(m.name).value, m).ByTime? && !RightThere(w, r, m)
    then {m.id} else {}
  }

  lemma HandleMetadataOk(w: World, h: History, k: History, c: Config, r: Receiver, m: Manifest)
    requires Inv(w, h, r) && Honest(w, m) && r.todo == [] && Later(h, k) && TimeAnswers(w, r, m) <= k.byTime
    ensures Inv(w, k, HandleMetadata(w.host, c, r, m).state)
    ensures AllOk(w, k, HandleMetadata(w.host, c, r, m).sent)
  {
    LaterKeeps(w, h, k, r);
    RegisterTask(w, r.transfers, r.todo, m);
    MetadataAnswered(w, k, c, r, m);
    MetadataCached(w, k, c, r, m);
    MetadataShape(w.host, c, r, m);
    hide IndexOk, TransfersOk, JournalOk, QueueOk, PreOk, PartsOk, WorkingOk, TodoOk, FilesOk, HandleMetadata, Honest;
  }

  /** What METADATA is answered with before the lock, and what is left to do. */
  lemma MetadataAnswered(w: World, k: History, c: Config, r: Receiver, m: Manifest)
    requires Inv(w, k, r) && Honest(w, m) && TimeAnswers(w, r, m) <= k.byTime
    ensures var o := HandleMetadata(w.host, c, r, m);
            AllOk(w, k, o.sent) && (o.state.todo == r.todo || o.state.todo == [Register(m)] + r.todo)
  {
    var dest := w.host.dest(m.name);
    if dest.Some? {
      MatchPublished(w, k, r, m, dest.value);
      assert |m.id| == ID_SIZE;
    }
    hide Inv, Honest, Matching, FileInfoQuery, RightThere, Published;
    if FileInfoQuery(m) || dest.None? {
    } else if Matching(w.host, r, dest.value, m).NoMatch? {
    } else {
    }
  }

  lemma MetadataCached(w: World, k: History, c: Config, r: Receiver, m: Manifest)
    requires Inv(w, k, r)
    ensures var q := HandleMetadata(w.host, c, r, m).state; FilesOk(w, k, q.finals, q.cache)
  {
    assert FilesOk(w, k, r.finals, r.cache);
    var dest := w.host.dest(m.name);
    hide Inv, FileInfoQuery;
    if !FileInfoQuery(m) && dest.Some? {
      MatchSeen(w, k, r, m, dest.value);
      CacheForms(w.host, c, r, m, dest.value);
    }
    hide HandleMetadata, Matching;
  }

  lemma MatchSeen(w: World, k: History, r: Receiver, m: Manifest, dest: bytes)
    requires FilesOk(w, k, r.finals, r.cache)
    ensures Matching(w.host, r, dest, m).ByHash? ==> dest in r.finals && (dest, m.sha) in k.seen
  {
    hide SourceMtime;
  }

  /** What METADATA can make of the cache. */
  lemma CacheForms(h: Host, c: Config, r: Receiver, m: Manifest, dest: bytes)
    requires !FileInfoQuery(m) && h.dest(m.name) == Some(dest)
    ensures var q := HandleMetadata(h, c, r, m).state;
            && q.finals == r.finals
            && (|| q.cache == r.cache
                || q.cache == r.cache - {dest}
                || (Matching(h, r, dest, m).ByHash? && dest in r.finals
                    && q.cache == r.cache[dest := CacheEntry(|r.finals[dest].content|, r.finals[dest].mtime, m.sha)]))
  {
    hide Matching, FileInfoQuery;
    if Matching(h, r, dest, m).NoMatch? {
    } else {
    }
  }

  lemma RegisterTask(w: World, ts: Transfers, todo: seq<Task>, m: Manifest)
    requires TodoOk(w, ts, todo) && todo == [] && Honest(w, m)
    ensures TodoOk(w, ts, [Register(m)] + todo)
  {
    hide Honest;
  }

  // ---------------------------------------------------------------- metadata under the lock

  /** Moving a transfer to the id of a repeated manifest of the same signature. */
  function Moved(ts: Transfers, previous: bytes, m: Manifest): (us: Transfers)
    requires previous in ts
  {
    (ts - {previous})[m.id := ts[previous].(manifest := m)]
  }

  lemma MovedIndex(ts: Transfers, index: map<Signature, bytes>, previous: bytes, m: Manifest)
    requires IndexOk(ts, index) && previous in ts && m.id !in ts && SignatureOf(m) == Sig(ts[previous])
    ensures IndexOk(Moved(ts, previous, m), WithoutIndex(index, Sig(ts[previous]), previous)[SignatureOf(m) := m.id])
  {
  }

  lemma MovedTransfers(w: World, h: History, ts: Transfers, parts: map<bytes, bytes>, previous: bytes, m: Manifest)
    requires TransfersOk(w, h, ts, parts) && previous in ts
    requires SignatureOf(m) == Sig(ts[previous]) && Honest(w, m)
    ensures TransfersOk(w, h, Moved(ts, previous, m), parts)
  {
    var us := Moved(ts, previous, m);
    SameSignature(m, ts[previous].manifest, w, h, parts, ts[previous]);
    forall id | id in us ensures TransferOk(w, h, parts, us[id]) {
      if id != m.id {
        assert TransferOk(w, h, parts, ts[id]);
      }
    }
  }

  /** A transfer keeps everything that is said about it when its manifest is replaced by one of the same signature. */
  lemma SameSignature(m: Manifest, old_: Manifest, w: World, h: History, parts: map<bytes, bytes>, t: Transfer)
    requires TransferOk(w, h, parts, t) && t.manifest == old_ && Honest(w, m) && SignatureOf(m) == SignatureOf(old_)
    ensures TransferOk(w, h, parts, t.(manifest := m))
    ensures AllOf(t.(manifest := m)) == AllOf(t)
  {
    hide Holds, Published;
  }

  lemma MovedFinalizing(ts: Transfers, previous: bytes, m: Manifest, part: bytes)
    requires previous in ts && m.id !in ts && Finalizing(ts, part)
    ensures Finalizing(Moved(ts, previous, m), part)
  {
    var id :| id in ts && ts[id].part == part && ts[id].finalized;
    var at := if id == previous then m.id else id;
    assert Moved(ts, previous, m)[at].part == part && Moved(ts, previous, m)[at].finalized;
  }

  lemma MovedJournal(w: World, ts: Transfers, j: map<bytes, Record>, parts: map<bytes, bytes>, previous: bytes,
                     m: Manifest)
    requires JournalOk(w, ts, j, parts) && previous in ts && m.id !in ts
    ensures JournalOk(w, Moved(ts, previous, m), j, parts)
  {
    hide RecordOk;
    var us := Moved(ts, previous, m);
    forall id, a | id in us && a in j && us[id].finalized ensures us[id].part != j[a].part {
      var at := if id == m.id then previous else id;
      assert ts[at].finalized && ts[at].part == us[id].part;
    }
  }

  lemma MovedQueue(w: World, h: History, r: Receiver, previous: bytes, m: Manifest)
    requires Inv(w, h, r) && previous in r.transfers && m.id !in r.transfers
    ensures QueueOk(Moved(r.transfers, previous, m), r.parts, r.queue)
    ensures WorkingOk(w, h, Moved(r.transfers, previous, m), r.queue, r.working)
  {
    assert QueueOk(r.transfers, r.parts, r.queue) && WorkingOk(w, h, r.transfers, r.queue, r.working);
    hide Inv, Finalizing, Moved, Published;
    var us := Moved(r.transfers, previous, m);
    forall k | 0 <= k < |r.queue| ensures Finalizing(us, r.queue[k].part) {
      MovedFinalizing(r.transfers, previous, m, r.queue[k].part);
    }
    if r.working.Some? {
      MovedFinalizing(r.transfers, previous, m, r.working.value.part);
    }
  }

  /** Resuming under a new id: nothing about the object changes but its name. */
  lemma ResumeOk(w: World, h: History, r: Receiver, previous: bytes, m: Manifest)
    requires Inv(w, h, r) && Honest(w, m) && r.todo == [] && m.id !in r.transfers
    requires previous in r.transfers && Sig(r.transfers[previous]) == SignatureOf(m)
    ensures Inv(w, h, r.(transfers := Moved(r.transfers, previous, m),
                         index := WithoutIndex(r.index, Sig(r.transfers[previous]), previous)[SignatureOf(m) := m.id]))
    ensures TransferOk(w, h, r.parts, r.transfers[previous].(manifest := m))
  {
    MovedIndex(r.transfers, r.index, previous, m);
    MovedTransfers(w, h, r.transfers, r.parts, previous, m);
    MovedJournal(w, r.transfers, r.journal, r.parts, previous, m);
    MovedQueue(w, h, r, previous, m);
    OneTransfer(w, h, r.parts, r.transfers, previous);
    SameSignature(m, r.transfers[previous].manifest, w, h, r.parts, r.transfers[previous]);
    hide IndexOk, TransfersOk, TransferOk, JournalOk, QueueOk, PreOk, PartsOk, WorkingOk, FilesOk, Moved, WithoutIndex;
  }

  /** The state right after a transfer is created, before its tasks are queued. */
  function Created(r: Receiver, m: Manifest, dest: bytes, now: real): (q: Receiver)
  {
    r.(transfers := r.transfers[m.id := Transfer(m, m.id, dest, {}, -1, false, false, now, 0.0, FRESH)],
       index := r.index[SignatureOf(m) := m.id],
       parts := if m.id in r.parts then r.parts else r.parts[m.id := Zeros(m.fileSize)],
       pre := Pop(r.pre, m.id))
  }

  lemma CreatedParts(w: World, r: Receiver, m: Manifest, dest: bytes, now: real)
    requires PartsOk(w, r.parts) && Honest(w, m)
    ensures PartsOk(w, Created(r, m, dest, now).parts)
    ensures |Created(r, m, dest, now).parts[m.id]| == m.fileSize
  {
  }

  lemma CreatedIndex(r: Receiver, m: Manifest, dest: bytes, now: real)
    requires IndexOk(r.transfers, r.index) && m.id !in r.transfers && SignatureOf(m) !in r.index
    ensures IndexOk(Created(r, m, dest, now).transfers, Created(r, m, dest, now).index)
  {
  }

  lemma CreatedFresh(w: World, h: History, r: Receiver, m: Manifest, dest: bytes, now: real)
    requires PartsOk(w, r.parts) && Honest(w, m) && w.host.dest(m.name) == Some(dest)
    ensures TransferOk(w, h, Created(r, m, dest, now).parts, Created(r, m, dest, now).transfers[m.id])
  {
    CreatedParts(w, r, m, dest, now);
    TotalNat(m);
    hide PartsOk;
  }

  /** A new part file is nobody else's: its id stands for a signature no other transfer has. */
  lemma CreatedOthers(w: World, h: History, r: Receiver, m: Manifest, dest: bytes, now: real, id: bytes)
    requires Inv(w, h, r) && Honest(w, m) && SignatureOf(m) !in r.index && id in r.transfers && id != m.id
    ensures TransferOk(w, h, Created(r, m, dest, now).parts, Created(r, m, dest, now).transfers[id])
  {
    OneTransfer(w, h, r.parts, r.transfers, id);
    assert Sig(r.transfers[id]) in r.index;
    assert r.transfers[id].part != m.id;
    hide Holds, Inv;
  }

  lemma CreatedTransfers(w: World, h: History, r: Receiver, m: Manifest, dest: bytes, now: real)
    requires Inv(w, h, r) && Honest(w, m) && m.id !in r.transfers && SignatureOf(m) !in r.index
    requires w.host.dest(m.name) == Some(dest)
    ensures var q := Created(r, m, dest, now);
            TransfersOk(w, h, q.transfers, q.parts) && PartsOk(w, q.parts) && IndexOk(q.transfers, q.index)
  {
    var q := Created(r, m, dest, now);
    CreatedParts(w, r, m, dest, now);
    CreatedIndex(r, m, dest, now);
    CreatedFresh(w, h, r, m, dest, now);
    hide JournalOk, QueueOk, PreOk, TodoOk, WorkingOk, FilesOk, TransferOk, PartsOk, IndexOk;
    forall id | id in q.transfers ensures TransferOk(w, h, q.parts, q.transfers[id]) {
      if id != m.id {
        CreatedOthers(w, h, r, m, dest, now, id);
      }
    }
  }

  lemma CreatedJournal(w: World, h: History, r: Receiver, m: Manifest, dest: bytes, now: real)
    requires Inv(w, h, r) && m.id !in r.transfers
    ensures JournalOk(w, Created(r, m, dest, now).transfers, r.journal, Created(r, m, dest, now).parts)
  {
    assert JournalOk(w, r.transfers, r.journal, r.parts);
    hide Inv, RecordOk;
    var q := Created(r, m, dest, now);
    forall a | a in r.journal ensures RecordOk(w, q.parts, a, r.journal[a]) {
      RecordStays(w, r.parts, q.parts, a, r.journal[a]);
    }
  }

  /** A record stays sound while its part file stays as it is. */
  lemma RecordStays(w: World, parts: map<bytes, bytes>, after: map<bytes, bytes>, a: bytes, rec: Record)
    requires RecordOk(w, parts, a, rec) && rec.part in after && after[rec.part] == parts[rec.part]
    ensures RecordOk(w, after, a, rec)
  {
    hide Holds, Honest, Canonical, Elems;
  }

  lemma CreatedQueue(w: World, h: History, r: Receiver, m: Manifest, dest: bytes, now: real)
    requires Inv(w, h, r) && m.id !in r.transfers
    ensures var q := Created(r, m, dest, now);
            QueueOk(q.transfers, q.parts, r.queue) && WorkingOk(w, h, q.transfers, r.queue, r.working)
  {
    hide JournalOk, PreOk, TodoOk, FilesOk, IndexOk, TransfersOk, PartsOk, Finalizing;
    forall p | Finalizing(r.transfers, p) ensures Finalizing(Created(r, m, dest, now).transfers, p) {
      CreatedFinalizing(r, m, dest, now, p);
    }
  }

  lemma CreatedFinalizing(r: Receiver, m: Manifest, dest: bytes, now: real, p: bytes)
    requires m.id !in r.transfers && Finalizing(r.transfers, p)
    ensures Finalizing(Created(r, m, dest, now).transfers, p)
  {
    var id :| id in r.transfers && r.transfers[id].part == p && r.transfers[id].finalized;
    assert Created(r, m, dest, now).transfers[id].part == p && Created(r, m, dest, now).transfers[id].finalized;
  }

  lemma CreatedOk(w: World, h: History, r: Receiver, m: Manifest, dest: bytes, now: real)
    requires Inv(w, h, r) && Honest(w, m) && m.id !in r.transfers && SignatureOf(m) !in r.index && r.todo == []
    requires w.host.dest(m.name) == Some(dest)
    ensures Inv(w, h, Created(r, m, dest, now))
  {
    CreatedTransfers(w, h, r, m, dest, now);
    CreatedJournal(w, h, r, m, dest, now);
    CreatedQueue(w, h, r, m, dest, now);
    PreDrop(w, r.pre, m.id);
    hide IndexOk, TransfersOk, JournalOk, QueueOk, PreOk, PartsOk, WorkingOk, FilesOk;
  }

  /** The tasks a new transfer starts with. */
  function FirstTasks(r: Receiver, m: Manifest): (todo: seq<Task>)
  {
    var buffered := Popped(r.pre, m.id);
    if m.totalChunks == 0 then [Queue(m.id, [])]
    else if buffered == [] then []
    else seq(|buffered|, k requires 0 <= k < |buffered| => Replay(m.id, buffered[k].key, buffered[k].value))
         + [Advertise(m.id)]
  }

  lemma FirstTasksOk(w: World, r: Receiver, m: Manifest, dest: bytes, now: real)
    requires PreOk(w, r.pre)
    ensures TodoOk(w, Created(r, m, dest, now).transfers, FirstTasks(r, m))
  {
    var ts, todo, buffered := Created(r, m, dest, now).transfers, FirstTasks(r, m), Popped(r.pre, m.id);
    forall k | 0 <= k < |todo| ensures TaskOk(w, ts, todo[k]) && !todo[k].Register? {
      if m.totalChunks == 0 {
        assert Interval(0, 0) == {};
      } else if k < |buffered| {
        PoppedHonest(w, r.pre, m.id, k);
      }
    }
  }

  /** The locked part of `_prepare_transfer` keeps the invariant in each of its four branches. */
  lemma RegisterOk(w: World, h: History, c: Config, r: Receiver, now: real, m: Manifest)
    requires Inv(w, h, r) && Honest(w, m) && r.todo == []
    ensures Inv(w, h, RegisterTransfer(w.host, c, r, now, m).state)
    ensures AllOk(w, h, RegisterTransfer(w.host, c, r, now, m).sent)
  {
    var g := SignatureOf(m);
    if w.host.dest(m.name).None? {
    } else if m.id in r.transfers {
      OneTransfer(w, h, r.parts, r.transfers, m.id);
      AdvertiseOk(w, h, c, r.transfers[m.id], now);
    } else if g in r.index {
      IndexEntry(w, h, r, g);
      ResumeOk(w, h, r, r.index[g], m);
      AdvertiseOk(w, h, c, r.transfers[r.index[g]].(manifest := m), now);
      hide IndexOk, TransfersOk, TransferOk, JournalOk, QueueOk, PreOk, PartsOk, WorkingOk, FilesOk, WithoutIndex,
           AdvertiseState, TodoOk;
    } else {
      RegisterNew(w, h, c, r, now, m);
    }
  }

  lemma IndexEntry(w: World, h: History, r: Receiver, g: Signature)
    requires Inv(w, h, r) && g in r.index
    ensures r.index[g] in r.transfers && Sig(r.transfers[r.index[g]]) == g && FoundIndex(r, g) == r.index
  {
  }

  lemma RegisterNew(w: World, h: History, c: Config, r: Receiver, now: real, m: Manifest)
    requires Inv(w, h, r) && Honest(w, m) && r.todo == []
    requires w.host.dest(m.name).Some? && m.id !in r.transfers && SignatureOf(m) !in r.index
    ensures Inv(w, h, RegisterTransfer(w.host, c, r, now, m).state)
    ensures RegisterTransfer(w.host, c, r, now, m).sent == []
  {
    var dest := w.host.dest(m.name).value;
    CreatedOk(w, h, r, m, dest, now);
    FirstTasksOk(w, r, m, dest, now);
    assert FirstTasks(r, m) + r.todo == FirstTasks(r, m);
    assert RegisterTransfer(w.host, c, r, now, m).state
        == Created(r, m, dest, now).(dirty := true, todo := FirstTasks(r, m) + r.todo);
    hide IndexOk, TransfersOk, JournalOk, QueueOk, PreOk, PartsOk, WorkingOk, FilesOk, Created, FirstTasks, TodoOk;
  }

  /** What METADATA does to the transfers. */
  lemma RegisterMap(h: Host, c: Config, r: Receiver, now: real, m: Manifest)
    requires IndexOk(r.transfers, r.index)
    ensures var us, g := RegisterTransfer(h, c, r, now, m).state.transfers, SignatureOf(m);
            || us == r.transfers
            || (m.id !in r.transfers
                && if g in r.index
                   then r.index[g] in r.transfers && Sig(r.transfers[r.index[g]]) == g && us == Moved(r.transfers, r.index[g], m)
                   else m.id in us && us == r.transfers[m.id := us[m.id]])
  {
    var g := SignatureOf(m);
    hide Popped, Pop, AdvertiseState, WithoutIndex, Zeros;
    if g in r.index {
      assert r.index[g] in r.transfers && Sig(r.transfers[r.index[g]]) == g;
    }
    hide IndexOk;
    if h.dest(m.name).None? || m.id in r.transfers {
    } else if g in r.index {
    } else {
    }
  }

  // ---------------------------------------------------------------- timers

  lemma TimersOk(w: World, h: History, r: Receiver, id: bytes, u: Transfer)
    requires Inv(w, h, r) && id in r.transfers
    requires u == r.transfers[id].(lastActivity := u.lastActivity, pace := u.pace)
    ensures Inv(w, h, r.(transfers := r.transfers[id := u]))
  {
    OneTransfer(w, h, r.parts, r.transfers, id);
    assert TransferOk(w, h, r.parts, u) by {
      hide Holds, Honest, Published;
    }
    hide TransferOk, Inv;
    UpdateTransfer(w, h, r, id, u);
  }

  lemma BeaconOk(w: World, h: History, r: Receiver, now: real, id: bytes)
    requires Inv(w, h, r)
    ensures Inv(w, h, HandleBeacon(r, now, id))
  {
    if id in r.transfers {
      TimersOk(w, h, r, id, r.transfers[id].(lastActivity := now));
    }
    hide IndexOk, TransfersOk, JournalOk, QueueOk, PreOk, TodoOk, PartsOk, WorkingOk, FilesOk;
  }

  lemma RepairTickOk(w: World, h: History, c: Config, r: Receiver, now: real, id: bytes)
    requires Inv(w, h, r)
    ensures Inv(w, h, RepairTick(c, r, now, id).state) && AllOk(w, h, RepairTick(c, r, now, id).sent)
  {
    if id in r.transfers && !r.transfers[id].done && !r.transfers[id].finalized {
      OneTransfer(w, h, r.parts, r.transfers, id);
      RepairSentOk(w, h, c, r, now, id);
      var t := r.transfers[id];
      var limited := LimitForTransfer(c.repair, t.highest, MissingOf(t));
      var (pace, sends) := Periodic(c.pacing, t.pace, |t.received|, t.highest, Length(limited, |limited|), now);
      hide Inv, Periodic, LimitForTransfer, MissingOf, Length, TransferOk, AllOk, RepairStatus;
      TimersOk(w, h, r, id, t.(pace := pace));
    }
  }

  /** A repair request is a sound message. */
  lemma RepairSentOk(w: World, h: History, c: Config, r: Receiver, now: real, id: bytes)
    requires id in r.transfers && Honest(w, r.transfers[id].manifest)
    ensures AllOk(w, h, RepairTick(c, r, now, id).sent)
  {
    assert |r.transfers[id].manifest.id| == ID_SIZE;
    hide Honest, Periodic, LimitForTransfer, MissingOf, Length, Published;
  }


  lemma NoneMissing(s: set<int>, n: nat)
    requires s <= Interval(0, n) && RangesBelow(Interval(0, n) - s, n) == []
    ensures s == Interval(0, n)
  {
    var m := Interval(0, n) - s;
    RangesBelowMeaning(m, n);
    assert m * Interval(0, n) == m;
    assert Elems([]) == {};
    assert Interval(0, n) == s + m;
  }

  /** A stale transfer with nothing missing is full. */
  lemma NothingMissing(w: World, h: History, parts: map<bytes, bytes>, t: Transfer)
    requires TransferOk(w, h, parts, t) && MissingOf(t) == []
    ensures t.received == AllOf(t)
  {
    TotalNat(t.manifest);
    hide Holds, Interval, RangesBelow, ManifestOk;
    NoneMissing(t.received, t.manifest.totalChunks);
  }

  lemma StaleCheckOk(w: World, h: History, c: Config, r: Receiver, now: real, id: bytes)
    requires Inv(w, h, r) && r.todo == []
    ensures Inv(w, h, StaleCheck(c, r, now, id))
  {
    hide Inv, TransferOk, MissingOf, AllOf;
    if id in r.transfers {
      var t := r.transfers[id];
      if MissingOf(t) == [] {
        InvAt(w, h, r, id);
        NothingMissing(w, h, r.parts, t);
        NextTasks(w, h, r, id, [Queue(id, [])] + r.todo, true);
      } else {
        TimersOk(w, h, r, id, t.(lastActivity := now, pace := StaleReset(t.pace)));
        AnyDirty(w, h, r.(transfers := r.transfers[id := t.(lastActivity := now, pace := StaleReset(t.pace))]), true);
      }
    }
  }

  lemma ExpireOk(w: World, h: History, c: PreConfig, r: Receiver, now: real)
    requires Inv(w, h, r)
    ensures Inv(w, h, r.(pre := EvictExpired(c, r.pre, now)))
  {
    PreExpire(w, c, r.pre, now);
    hide IndexOk, TransfersOk, JournalOk, QueueOk, PreOk, PartsOk, WorkingOk, FilesOk, TodoOk;
  }

  // ---------------------------------------------------------------- tasks

  lemma RunTaskOk(w: World, h: History, c: Config, r: Receiver, now: real)
    requires Inv(w, h, r) && r.todo != []
    ensures Inv(w, h, RunTask(w.host, c, r, now).state) && AllOk(w, h, RunTask(w.host, c, r, now).sent)
  {
    var rest := r.(todo := r.todo[1..]);
    TodoRest(w, r.transfers, r.todo);
    assert Inv(w, h, rest) by {
      hide IndexOk, TransfersOk, JournalOk, QueueOk, PreOk, PartsOk, WorkingOk, FilesOk, TodoOk;
    }
    hide Inv, NoRegister, AcceptData, QueueFinalization, RegisterTransfer, AdvertiseState;
    match r.todo[0]
    case Register(m) =>
      RegisterOk(w, h, c, rest, now, m);
    case Replay(id, index, payload) =>
      AcceptDataOk(w, h, c, rest, now, id, index, payload);
    case Queue(id, missing) =>
      QueueFinalizationOk(w, h, c, rest, now, id);
    case Advertise(id) =>
      if id in r.transfers {
        AdvertiseTask(w, h, c, rest, now, id);
      }
  }

  lemma AdvertiseTask(w: World, h: History, c: Config, r: Receiver, now: real, id: bytes)
    requires Inv(w, h, r) && id in r.transfers
    ensures AllOk(w, h, AdvertiseState(c, r.transfers[id], now))
  {
    OneTransfer(w, h, r.parts, r.transfers, id);
    AdvertiseOk(w, h, c, r.transfers[id], now);
  }

  lemma TodoRest(w: World, ts: Transfers, todo: seq<Task>)
    requires TodoOk(w, ts, todo) && todo != []
    ensures TodoOk(w, ts, todo[1..]) && TaskOk(w, ts, todo[0])
    ensures if todo[0].Register? then todo[1..] == [] else NoRegister(todo[1..])
    ensures NoRegister(todo[1..])
  {
  }

  // ---------------------------------------------------------------- crash and restart

  /** A record restores to exactly the chunks it lists. */
  lemma RestoredOk(w: World, h: History, parts: map<bytes, bytes>, id: bytes, rec: Record, now: real)
    requires RecordOk(w, parts, id, rec)
    ensures var t := Restored(w.host, rec, now);
            TransferOk(w, h, parts, t) && !t.finalized && t.received == Elems(rec.received) && t.manifest.id == id
            && t.part == rec.part && t.manifest == rec.manifest
  {
    var n := rec.manifest.totalChunks;
    TotalNat(rec.manifest);
    Tracker.FromReceivedMeaning(rec.received, n);
    assert Elems(rec.received) * Interval(0, n) == Elems(rec.received);
    hide Holds, Elems, Canonical;
  }

  lemma RestoredTransfersOk(w: World, h: History, r: Receiver, now: real)
    requires JournalOk(w, r.transfers, r.journal, r.parts)
    ensures var ts := RestoredTransfers(w.host, r, now);
            && TransfersOk(w, h, ts, r.parts) && (forall id :: id in ts ==> !ts[id].finalized && ts[id].manifest.id == id)
            && (forall a, b :: a in ts && b in ts && a != b ==> Sig(ts[a]) != Sig(ts[b]))
  {
    var ts := RestoredTransfers(w.host, r, now);
    forall id | id in ts
      ensures TransferOk(w, h, r.parts, ts[id]) && !ts[id].finalized && ts[id].manifest == r.journal[id].manifest
              && ts[id].manifest.id == id
    {
      assert RecordOk(w, r.parts, id, r.journal[id]);
      RestoredOk(w, h, r.parts, id, r.journal[id], now);
      hide RecordOk, TransferOk;
    }
  }

  lemma IndexOfOk(ts: Transfers)
    requires forall id :: id in ts ==> ts[id].manifest.id == id
    requires forall a, b :: a in ts && b in ts && a != b ==> Sig(ts[a]) != Sig(ts[b])
    ensures IndexOk(ts, IndexOf(ts))
  {
  }

  lemma LoadedOk(w: World, h: History, r: Receiver, ts: Transfers, j: map<bytes, Record>, flushed: real, dirty: bool)
    requires Inv(w, h, r) && IndexOk(ts, IndexOf(ts)) && TransfersOk(w, h, ts, r.parts) && JournalOk(w, ts, j, r.parts)
    ensures Inv(w, h, Receiver(ts, IndexOf(ts), EMPTY, map[], dirty, flushed, [], [], None, r.parts, r.finals, j))
  {
    hide IndexOk, TransfersOk, JournalOk, PartsOk, IndexOf;
  }

  lemma NoJournal(w: World, ts: Transfers, parts: map<bytes, bytes>)
    ensures JournalOk(w, ts, map[], parts)
  {
  }

  /** Crash soundness: whatever step the process died after, what the journal restores is sound. */
  lemma RestartOk(w: World, h: History, c: Config, r: Receiver, now: real)
    requires Inv(w, h, r)
    ensures Inv(w, h, Restart(w.host, c, r, now))
  {
    hide IndexOk, TransfersOk, JournalOk, JournalOf, IndexOf, RestoredTransfers, Interval;
    var ts := RestoredTransfers(w.host, r, now);
    RestoredTransfersOk(w, h, r, now);
    IndexOfOk(ts);
    SaveOk(w, h, ts, IndexOf(ts), r.parts);
    NoJournal(w, ts, r.parts);
    LoadedOk(w, h, r, ts, JournalOf(ts), now, false);
    LoadedOk(w, h, r, ts, map[], 0.0, false);
    hide Inv;
  }

  /** Saving and restoring with no step between gives back every transfer that was not finalized, with the identical
      set of chunks and the identical range list. */
  lemma SaveRestoreIdentical(w: World, h: History, c: Config, r: Receiver, now: real, later: real, id: bytes)
    requires Inv(w, h, r) && id in r.transfers
    ensures w.host.dest(r.transfers[id].manifest.name).Some?
    ensures var saved := Flush(c, r.(dirty := true), now, true);
            var q := Restart(w.host, c, saved, later);
            && (id in q.transfers <==> !r.transfers[id].finalized)
            && (id in q.transfers ==> Restored(w.host, RecordOf(r.transfers[id]), later) == q.transfers[id])
    ensures var t, u := r.transfers[id], Restored(w.host, RecordOf(r.transfers[id]), later);
            !t.finalized ==> u.received == t.received && ReceivedOf(u) == ReceivedOf(t) && u.part == t.part
                             && u.manifest == t.manifest && u.highest == Max(-1, t.highest)
  {
    hide Inv, Flush, Restart, TransferOk, RecordOk, Restored, ReceivedOf;
    var saved := Flush(c, r.(dirty := true), now, true);
    SavedRecord(c, r, now, id);
    RestartTransfers(w.host, c, saved, later);
    InvAt(w, h, r, id);
    DestSome(w, h, r.parts, r.transfers[id]);
    if !r.transfers[id].finalized {
      PartWhole(w, h, r.parts, r.transfers[id]);
      BackFromRecord(w, h, r.parts, id, r.transfers[id], later);
    }
  }

  lemma BackFromRecord(w: World, h: History, parts: map<bytes, bytes>, id: bytes, t: Transfer, later: real)
    requires TransferOk(w, h, parts, t) && !t.finalized && t.manifest.id == id && w.host.dest(t.manifest.name).Some?
    ensures var u := Restored(w.host, RecordOf(t), later);
            && u.received == t.received && ReceivedOf(u) == ReceivedOf(t) && u.part == t.part && u.manifest == t.manifest
            && u.highest == Max(-1, t.highest)
  {
    hide TransferOk, RecordOk, RangesBelow, Interval;
    RecordFromTransfer(w, h, parts, id, t);
    RestoredOk(w, h, parts, id, RecordOf(t), later);
  }

  lemma InvAt(w: World, h: History, r: Receiver, id: bytes)
    requires Inv(w, h, r) && id in r.transfers
    ensures TransferOk(w, h, r.parts, r.transfers[id]) && r.transfers[id].manifest.id == id
  {
    OneTransfer(w, h, r.parts, r.transfers, id);
    hide TransfersOk, JournalOk, QueueOk, PreOk, TodoOk, WorkingOk, FilesOk, PartsOk, TransferOk;
  }

  lemma DestSome(w: World, h: History, parts: map<bytes, bytes>, t: Transfer)
    requires TransferOk(w, h, parts, t)
    ensures w.host.dest(t.manifest.name) == Some(t.dest)
  {
    hide Holds, Honest, Published;
  }

  lemma SavedRecord(c: Config, r: Receiver, now: real, id: bytes)
    requires id in r.transfers
    ensures var saved := Flush(c, r.(dirty := true), now, true);
            && saved.parts == r.parts && (id in saved.journal <==> !r.transfers[id].finalized)
            && (id in saved.journal ==> saved.journal[id] == RecordOf(r.transfers[id]))
  {
    hide RecordOf;
  }

  lemma RestartTransfers(h: Host, c: Config, r: Receiver, now: real)
    ensures Restart(h, c, r, now).transfers == RestoredTransfers(h, r, now)
  {
    hide IndexOf, RestoredTransfers, JournalOf;
  }

  lemma PartWhole(w: World, h: History, parts: map<bytes, bytes>, t: Transfer)
    requires TransferOk(w, h, parts, t) && !t.finalized
    ensures t.part in parts && |parts[t.part]| == t.manifest.fileSize
  {
    hide HoldsChunk;
  }
}
