/** What a finalization does to the files, the transfers, the journal and the cache, and what it answers: the part file becomes
    the final file when its hash agrees, and is deleted when it does not. */
module Finalization {
  import opened Bytes
  import opened Ranges
  import opened Frames
  import opened Repair
  import opened PreMetadata
  import opened Pacing
  import opened ReceiverModel
  import opened Safety
  import opened Invariant
  import opened InvariantSteps
  import opened Shapes
  import opened System
  import opened Runs
  import opened Asking
  import opened Journal
  import opened Announcements

  // ---------------------------------------------------------------- the first half

  /** The time of a file that is published: the one its METADATA tells, or the one the file system gives it. */
  function TimeOf(m: Manifest, fileTime: int): (t: int)
  {
    if Has(m.metadata, 3) && |Get(m.metadata, 3)| == 8 then FromBE(Get(m.metadata, 3)) else fileTime
  }

  /** The part file of `t` has become the final file: its bytes are at the destination, and it is gone unless part files are
      kept.  No other file has changed. */
  ghost predicate FilePublished(c: Config, r: Receiver, q: Receiver, t: Transfer, fileTime: int)
  {
    && t.part in r.parts
    && q.finals == r.finals[t.dest := FinalFile(r.parts[t.part], TimeOf(t.manifest, fileTime))]
    && (t.part in q.parts <==> c.keepParts) && q.parts - {t.part} == r.parts - {t.part}
    && (c.keepParts ==> q.parts[t.part] == r.parts[t.part])
  }

  /** The part file of `t` is deleted, and no other file has changed. */
  ghost predicate FileRejected(r: Receiver, q: Receiver, t: Transfer)
  {
    q.finals == r.finals && t.part !in q.parts && q.parts == r.parts - {t.part}
  }

  /** The job at the head of the queue has been taken, and its verdict is on its way. */
  ghost predicate Taken(r: Receiver, q: Receiver, id: bytes, t: Transfer, state: TransferState, cached: Option<CacheEntry>)
    requires r.queue != []
  {
    && q == r.(queue := r.queue[1..], parts := q.parts, finals := q.finals, working := q.working)
    && q.working == Some(Verdict(id, t.part, t.dest, state, [], cached))
  }

  /** The first half of a finalization, in any state that keeps the invariant: it publishes the part file when its hash is the
      manifest's, and deletes it when it is not. */
  lemma BeginIs(w: World, h: History, c: Config, r: Receiver, id: bytes, fileTime: int)
    requires Inv(w, h, r) && r.queue != [] && id in r.transfers && r.transfers[id].part == r.queue[0].part
    ensures var t, q := r.transfers[id], FinalizeBegin(w.host, c, r, id, fileTime);
            && t.part in r.parts
            && if w.host.sha(r.parts[t.part]) == t.manifest.sha
               then FilePublished(c, r, q, t, fileTime)
                    && Taken(r, q, id, t, COMPLETE,
                             Some(CacheEntry(|r.parts[t.part]|, TimeOf(t.manifest, fileTime), t.manifest.sha)))
               else FileRejected(r, q, t) && Taken(r, q, id, t, HASH_MISMATCH, None)
  {
    HeadIs(w, h, r);
    hide Inv, TimeOf, SourceMtime, FilePublished, FileRejected, FinalizeBegin;
    SameTime(r.transfers[id].manifest, fileTime);
    if w.host.sha(r.parts[r.transfers[id].part]) == r.transfers[id].manifest.sha {
      BeginPublishes(w.host, c, r, id, fileTime);
    } else {
      BeginRejects(w.host, c, r, id, fileTime);
    }
  }

  lemma SameTime(m: Manifest, fileTime: int)
    ensures TimeOf(m, fileTime) == if SourceMtime(m).Some? then SourceMtime(m).value else fileTime
  {
    hide FromBE, Has, Get;
  }

  lemma BeginPublishes(h: Host, c: Config, r: Receiver, id: bytes, fileTime: int)
    requires r.queue != [] && id in r.transfers && r.transfers[id].part == r.queue[0].part && r.queue[0].missing == []
    requires var t := r.transfers[id]; t.part in r.parts && h.sha(r.parts[t.part]) == t.manifest.sha
    ensures var t, q := r.transfers[id], FinalizeBegin(h, c, r, id, fileTime);
            && FilePublished(c, r, q, t, fileTime)
            && Taken(r, q, id, t, COMPLETE,
                     Some(CacheEntry(|r.parts[t.part]|, TimeOf(t.manifest, fileTime), t.manifest.sha)))
  {
    hide SourceMtime, TimeOf;
    SameTime(r.transfers[id].manifest, fileTime);
  }

  lemma BeginRejects(h: Host, c: Config, r: Receiver, id: bytes, fileTime: int)
    requires r.queue != [] && id in r.transfers && r.transfers[id].part == r.queue[0].part && r.queue[0].missing == []
    requires var t := r.transfers[id]; t.part in r.parts && h.sha(r.parts[t.part]) != t.manifest.sha
    ensures var t, q := r.transfers[id], FinalizeBegin(h, c, r, id, fileTime);
            FileRejected(r, q, t) && Taken(r, q, id, t, HASH_MISMATCH, None)
  {
    hide SourceMtime;
  }

  lemma HeadIs(w: World, h: History, r: Receiver)
    requires Inv(w, h, r) && r.queue != []
    ensures r.queue[0].missing == [] && r.queue[0].part in r.parts && Finalizing(r.transfers, r.queue[0].part)
  {
    hide IndexOk, TransfersOk, JournalOk, WorkingOk, FilesOk, PreOk, TodoOk, PartsOk, Finalizing;
  }

  /** A job that still misses something, which no run queues, touches no file; its verdict is INCOMPLETE with what is
      missing. */
  lemma IncompleteIs(h: Host, c: Config, r: Receiver, id: bytes, fileTime: int)
    requires r.queue != [] && id in r.transfers && r.transfers[id].part == r.queue[0].part && r.queue[0].missing != []
    ensures var t := r.transfers[id];
            var v := Verdict(id, t.part, t.dest, INCOMPLETE, r.queue[0].missing, None);
            FinalizeBegin(h, c, r, id, fileTime) == r.(queue := r.queue[1..], working := Some(v))
  {
  }

  // ---------------------------------------------------------------- the second half

  /** What the verdict makes of the cache: the entry of the published file, none for a destination whose transfer failed. */
  ghost predicate CacheSettled(r: Receiver, q: Receiver, v: Verdict)
  {
    && q.cache - {v.dest} == r.cache - {v.dest}
    && (v.cached.Some? ==> v.dest in q.cache && q.cache[v.dest] == v.cached.value)
    && (v.cached.None? && !v.state.COMPLETE? ==> v.dest !in q.cache)
  }

  /** The second half: the transfer leaves, the others stay as they are but for the mark of the one that was finalized, and the
      verdict is sent. */
  lemma EndIs(c: Config, r: Receiver, now: real)
    requires r.working.Some?
    ensures var o, v := FinalizeEnd(c, r, now), r.working.value;
            var q := o.state;
            && q == r.(transfers := q.transfers, index := q.index, cache := q.cache, working := None, dirty := q.dirty,
                       journal := q.journal, lastFlush := q.lastFlush)
            && !q.dirty && q.journal == JournalOf(q.transfers) && CacheSettled(r, q, v)
            && q.transfers.Keys == r.transfers.Keys - {v.id}
            && (forall x :: x in q.transfers ==>
                  q.transfers[x] == if r.transfers[x].part == v.part then r.transfers[x].(done := v.state.COMPLETE?)
                                    else r.transfers[x])
            && o.sent == (if c.pacing.feedback then [StatusMsg(Status(v.id, TRANSFER, v.state, v.missing, None, None))] else [])
  {
    hide WithoutIndex, JournalOf;
  }

  // ---------------------------------------------------------------- the whole, as a run

  /** The source has the hash that the manifest says. */
  ghost predicate RightHash(w: World, t: Transfer)
  {
    w.host.sha(w.source(Sig(t))) == t.manifest.sha
  }

  /** What a finalization leaves of a receiver in which `t`, registered under `id`, was next. */
  ghost predicate Settled(w: World, c: Config, r: Receiver, q: Receiver, id: bytes, fileTime: int)
    requires r.queue != [] && id in r.transfers
  {
    var t := r.transfers[id];
    && t.part in r.parts && r.parts[t.part] == w.source(Sig(t)) && |r.parts[t.part]| == t.manifest.fileSize
    && (if RightHash(w, t) then FilePublished(c, r, q, t, fileTime) else FileRejected(r, q, t))
    && q.transfers == r.transfers - {id} && q.queue == r.queue[1..] && q.working == None && q.todo == r.todo && q.pre == r.pre
    && UpToDate(q) && !q.dirty && q.cache - {t.dest} == r.cache - {t.dest}
    && (RightHash(w, t) ==>
          && t.dest in q.cache
          && q.cache[t.dest] == CacheEntry(t.manifest.fileSize, TimeOf(t.manifest, fileTime), t.manifest.sha))
    && (!RightHash(w, t) ==> t.dest !in q.cache)
  }

  function VerdictOf(c: Config, id: bytes, right: bool): (sent: seq<Message>)
  {
    if c.pacing.feedback
    then [StatusMsg(Status(id, TRANSFER, if right then COMPLETE else HASH_MISMATCH, [], None, None))] else []
  }

  /** In any reachable state with a transfer next to be finalized, the two events of its finalization publish its part file,
      which is the source byte for byte, if the source has the hash of the manifest, and delete it otherwise; they take the
      transfer out, leave a journal that is up to date, settle the cache and put the verdict on the network. */
  lemma FinalizesInRun(w: World, c: Config, s: Sys, events: seq<Event>, n: nat, id: bytes, fileTime: int, now: real)
    requires Init(w, s) && n <= |events| && Enabled(w, Run(w, c, s, events, n), BeginFinalize(id, fileTime))
    ensures var u := Run(w, c, s, events, n);
            && u.receiver.queue != [] && id in u.receiver.transfers
            && var t := Final(w, c, u, [BeginFinalize(id, fileTime), EndFinalize(now)]);
               && Settled(w, c, u.receiver, t.receiver, id, fileTime) && t.senders == u.senders
               && t.net == u.net + Datagrams(VerdictOf(c, id, RightHash(w, u.receiver.transfers[id])))
  {
    var u := Run(w, c, s, events, n);
    RunOk(w, c, s, events, n);
    hide Run, Init;
    FinalizesNow(w, c, u, id, fileTime, now);
  }

  /** What is queued is the source. */
  lemma QueuedIsSource(w: World, h: History, r: Receiver, id: bytes)
    requires Inv(w, h, r) && r.queue != [] && id in r.transfers && r.transfers[id].part == r.queue[0].part
    ensures var t := r.transfers[id];
            && t.part in r.parts && r.parts[t.part] == w.source(Sig(t)) && |r.parts[t.part]| == t.manifest.fileSize
  {
    HeadIs(w, h, r);
    var k :| k in r.transfers && r.transfers[k].part == r.queue[0].part && r.transfers[k].finalized;
    SameTransfer(w, h, r.transfers, r.index, r.parts, id, k);
    InvAt(w, h, r, id);
    var t := r.transfers[id];
    TotalNat(t.manifest);
    hide Inv;
    AllChunksIsSource(w, Sig(t), r.parts[t.part]);
  }

  lemma FilesStay(c: Config, r: Receiver, a: Receiver, q: Receiver, t: Transfer, fileTime: int)
    requires q.finals == a.finals && q.parts == a.parts
    ensures FilePublished(c, r, a, t, fileTime) ==> FilePublished(c, r, q, t, fileTime)
    ensures FileRejected(r, a, t) ==> FileRejected(r, q, t)
  {
    hide TimeOf;
  }

  lemma OthersStay(w: World, h: History, r: Receiver, q: Receiver, id: bytes, done: bool)
    requires Inv(w, h, r) && id in r.transfers && q.transfers.Keys == r.transfers.Keys - {id}
    requires forall x :: x in q.transfers ==>
               q.transfers[x] == if r.transfers[x].part == r.transfers[id].part then r.transfers[x].(done := done)
                                 else r.transfers[x]
    ensures q.transfers == r.transfers - {id}
  {
    forall x | x in q.transfers ensures q.transfers[x] == r.transfers[x] {
      SameTransfer(w, h, r.transfers, r.index, r.parts, x, id);
    }
  }

  lemma FinalizesNow(w: World, c: Config, s: Sys, id: bytes, fileTime: int, now: real)
    requires SysInv(w, s) && Enabled(w, s, BeginFinalize(id, fileTime))
    ensures s.receiver.queue != [] && id in s.receiver.transfers
    ensures var t := Final(w, c, s, [BeginFinalize(id, fileTime), EndFinalize(now)]);
            && Settled(w, c, s.receiver, t.receiver, id, fileTime) && t.senders == s.senders
            && t.net == s.net + Datagrams(VerdictOf(c, id, RightHash(w, s.receiver.transfers[id])))
  {
    hide *;
    var events := [BeginFinalize(id, fileTime), EndFinalize(now)];
    var a := Step(w, c, s, BeginFinalize(id, fileTime));
    var u := Step(w, c, a, EndFinalize(now));
    TwoSteps(w, c, s, BeginFinalize(id, fileTime), EndFinalize(now));
    BeginHas(w, s, id, fileTime);
    SysReceiver(w, s);
    StepOk(w, c, s, BeginFinalize(id, fileTime));
    StepOk(w, c, a, EndFinalize(now));
    SysReceiver(w, u);
    Begins(w, c, s, id, fileTime);
    BeginWorks(w, s.history, c, s.receiver, id, fileTime);
    EndReceiver(w, c, a, now);
    BothHalves(w, s.history, u.history, c, s.receiver, id, fileTime, now);
    Ends(w, c, a, now);
  }

  lemma BeginWorks(w: World, h: History, c: Config, r: Receiver, id: bytes, fileTime: int)
    requires Inv(w, h, r) && r.queue != [] && id in r.transfers && r.transfers[id].part == r.queue[0].part
    ensures FinalizeBegin(w.host, c, r, id, fileTime).working.Some?
  {
    BeginIs(w, h, c, r, id, fileTime);
    hide Inv, FinalizeBegin, FilePublished, FileRejected, TimeOf;
  }

  lemma TwoSteps(w: World, c: Config, s: Sys, e: Event, f: Event)
    ensures Final(w, c, s, [e, f]) == Step(w, c, Step(w, c, s, e), f)
  {
    hide Step;
    Unrolled(w, c, s, [e, f]);
    FinalIs(w, c, s, [e, f]);
    assert Run(w, c, s, [e, f], 1) == Step(w, c, s, [e, f][0]);
    assert Run(w, c, s, [e, f], 2) == Step(w, c, Run(w, c, s, [e, f], 1), [e, f][1]);
  }

  lemma BeginHas(w: World, s: Sys, id: bytes, fileTime: int)
    requires Enabled(w, s, BeginFinalize(id, fileTime))
    ensures var r := s.receiver; r.queue != [] && id in r.transfers && r.transfers[id].part == r.queue[0].part
  {
  }

  lemma EndReceiver(w: World, c: Config, s: Sys, now: real)
    requires s.receiver.working.Some?
    ensures Step(w, c, s, EndFinalize(now)).receiver == FinalizeEnd(c, s.receiver, now).state
  {
    hide FinalizeEnd, Step;
    StepReceiver(w, c, s, EndFinalize(now));
  }

  /** Both halves in one. */
  lemma BothHalves(w: World, h: History, k: History, c: Config, r: Receiver, id: bytes, fileTime: int, now: real)
    requires Inv(w, h, r) && r.queue != [] && id in r.transfers && r.transfers[id].part == r.queue[0].part
    requires var a := FinalizeBegin(w.host, c, r, id, fileTime);
             a.working.Some? ==> Inv(w, k, FinalizeEnd(c, a, now).state)
    ensures var a := FinalizeBegin(w.host, c, r, id, fileTime);
            && a.working.Some?
            && var o := FinalizeEnd(c, a, now);
               Settled(w, c, r, o.state, id, fileTime) && o.sent == VerdictOf(c, id, RightHash(w, r.transfers[id]))
  {
    hide Inv, UpToDate, FinalizeBegin, FinalizeEnd, TimeOf, FilePublished, FileRejected, CacheSettled, JournalOf, RightHash,
         Settled;
    var t, a := r.transfers[id], FinalizeBegin(w.host, c, r, id, fileTime);
    BeginIs(w, h, c, r, id, fileTime);
    QueuedIsSource(w, h, r, id);
    HashIs(w, t);
    var q := FinalizeEnd(c, a, now).state;
    EndIs(c, a, now);
    SavedTells(w, k, q);
    OthersStay(w, h, r, q, id, a.working.value.state.COMPLETE?);
    FilesStay(c, r, a, q, t, fileTime);
    CacheIs(a, q, a.working.value);
    Assembled(w, c, r, q, id, fileTime);
  }

  lemma HashIs(w: World, t: Transfer)
    ensures RightHash(w, t) <==> w.host.sha(w.source(Sig(t))) == t.manifest.sha
  {
  }

  lemma Assembled(w: World, c: Config, r: Receiver, q: Receiver, id: bytes, fileTime: int)
    requires r.queue != [] && id in r.transfers
    requires var t := r.transfers[id];
             && t.part in r.parts && r.parts[t.part] == w.source(Sig(t)) && |r.parts[t.part]| == t.manifest.fileSize
             && (if RightHash(w, t) then FilePublished(c, r, q, t, fileTime) else FileRejected(r, q, t))
             && q.transfers == r.transfers - {id} && q.queue == r.queue[1..] && q.working == None && q.todo == r.todo
             && q.pre == r.pre && UpToDate(q) && !q.dirty && q.cache - {t.dest} == r.cache - {t.dest}
             && (if RightHash(w, t)
                 then t.dest in q.cache
                      && q.cache[t.dest] == CacheEntry(t.manifest.fileSize, TimeOf(t.manifest, fileTime), t.manifest.sha)
                 else t.dest !in q.cache)
    ensures Settled(w, c, r, q, id, fileTime)
  {
    hide RightHash, UpToDate, FilePublished, FileRejected, TimeOf;
  }

  lemma CacheIs(r: Receiver, q: Receiver, v: Verdict)
    requires CacheSettled(r, q, v)
    ensures q.cache - {v.dest} == r.cache - {v.dest}
    ensures v.cached.Some? ==> v.dest in q.cache && q.cache[v.dest] == v.cached.value
    ensures v.cached.None? && !v.state.COMPLETE? ==> v.dest !in q.cache
  {
  }

  // ---------------------------------------------------------------- afterwards

  /** METADATA of a file that has just been published, or of another with its size and hash at the same place, finds the file
      there by the cache, whatever time it tells. */
  lemma PublishedIsThere(w: World, c: Config, s: Sys, events: seq<Event>, n: nat, id: bytes, fileTime: int, now: real,
                         raw: bytes, later: real, m: Manifest)
    requires Init(w, s) && n <= |events| && Enabled(w, Run(w, c, s, events, n), BeginFinalize(id, fileTime))
    requires var u := Run(w, c, s, events, n);
             && id in u.receiver.transfers && u.receiver.todo == [] && RightHash(w, u.receiver.transfers[id])
             && w.host.dest(m.name) == Some(u.receiver.transfers[id].dest)
             && m.fileSize == u.receiver.transfers[id].manifest.fileSize && m.sha == u.receiver.transfers[id].manifest.sha
    requires raw in Run(w, c, s, events, n).net && Arrives(w, raw) && Decode(raw) == Ok(MetadataMsg(m))
    requires !(Has(m.metadata, 100) && m.name == QUERY_NAME) && c.pacing.feedback
    ensures var u := Run(w, c, s, events, n);
            var t := Final(w, c, u, [BeginFinalize(id, fileTime), EndFinalize(now)]);
            var v := Step(w, c, t, Deliver(raw, later));
            && v.receiver.transfers == t.receiver.transfers && v.receiver.todo == []
            && v.net == t.net + Datagrams([StatusMsg(Status(m.id, TRANSFER, COMPLETE, [], None, None))])
  {
    hide *;
    var u := Run(w, c, s, events, n);
    var t := Final(w, c, u, [BeginFinalize(id, fileTime), EndFinalize(now)]);
    var dest := u.receiver.transfers[id].dest;
    FinalizesInRun(w, c, s, events, n, id, fileTime, now);
    PublishedKnown(w, c, u.receiver, t.receiver, id, fileTime, m);
    DeliveredIsAnswered(w, c, t, raw, later, m, dest);
  }

  lemma PublishedKnown(w: World, c: Config, r: Receiver, q: Receiver, id: bytes, fileTime: int, m: Manifest)
    requires r.queue != [] && id in r.transfers && Settled(w, c, r, q, id, fileTime) && RightHash(w, r.transfers[id])
    requires m.fileSize == r.transfers[id].manifest.fileSize && m.sha == r.transfers[id].manifest.sha
    ensures IsThere(w.host, q, m, r.transfers[id].dest) && q.todo == r.todo
  {
    hide TimeOf, TellsTime, UpToDate, RightHash;
  }

  /** A sender that waits learns the verdict: its call ends, with success exactly when the source has the manifest's hash. */
  lemma VerdictIsHeard(w: World, c: Config, s: Sys, events: seq<Event>, n: nat, id: bytes, fileTime: int, now: real)
    returns (raw: bytes)
    requires Init(w, s) && n <= |events| && Enabled(w, Run(w, c, s, events, n), BeginFinalize(id, fileTime))
    requires var u := Run(w, c, s, events, n);
             && id in u.receiver.transfers && id in u.senders && u.senders[id].phase == Waiting
             && HEADER_SIZE + STATUS_FIXED <= Largest(w) && c.pacing.feedback
    ensures var u := Run(w, c, s, events, n);
            var t := Final(w, c, u, [BeginFinalize(id, fileTime), EndFinalize(now)]);
            && Enabled(w, t, SenderReceive(id, raw))
            && var v := Step(w, c, t, SenderReceive(id, raw));
               id in v.senders && v.senders[id].phase == Finished(RightHash(w, u.receiver.transfers[id]))
  {
    hide *;
    var u := Run(w, c, s, events, n);
    var t := Final(w, c, u, [BeginFinalize(id, fileTime), EndFinalize(now)]);
    RunOk(w, c, s, events, n);
    FinalizesInRun(w, c, s, events, n, id, fileTime, now);
    SenderIs(w, u, id);
    raw := VerdictCrosses(w, c, id, RightHash(w, u.receiver.transfers[id]));
    Hears(w, c, t, id, raw, RightHash(w, u.receiver.transfers[id]));
  }

  lemma SenderIs(w: World, s: Sys, id: bytes)
    requires SysInv(w, s) && id in s.senders
    ensures s.senders[id].manifest.id == id && |id| == ID_SIZE
  {
    OneSender(w, s, id);
    hide SysInv, Published, ManifestOk;
  }

  lemma VerdictCrosses(w: World, c: Config, id: bytes, right: bool) returns (raw: bytes)
    requires |id| == ID_SIZE && c.pacing.feedback && HEADER_SIZE + STATUS_FIXED <= Largest(w)
    ensures raw in Datagrams(VerdictOf(c, id, right)) && Arrives(w, raw)
    ensures Decode(raw) == Ok(StatusMsg(Status(id, TRANSFER, if right then COMPLETE else HASH_MISMATCH, [], None, None)))
  {
    var state := if right then COMPLETE else HASH_MISMATCH;
    assert Elems([]) == {};
    StatusSendable(id, state, [], 0);
    hide Encode, Decode, Datagrams;
    SingleDatagram(StatusMsg(Status(id, TRANSFER, state, [], None, None)));
    raw := Encode(StatusMsg(Status(id, TRANSFER, state, [], None, None))).value;
  }

  lemma Hears(w: World, c: Config, s: Sys, id: bytes, raw: bytes, right: bool)
    requires id in s.senders && s.senders[id].phase == Waiting && s.senders[id].manifest.id == id
    requires raw in s.net && Arrives(w, raw)
    requires Decode(raw) == Ok(StatusMsg(Status(id, TRANSFER, if right then COMPLETE else HASH_MISMATCH, [], None, None)))
    ensures Enabled(w, s, SenderReceive(id, raw))
    ensures var v := Step(w, c, s, SenderReceive(id, raw)); id in v.senders && v.senders[id].phase == Finished(right)
  {
    hide Decode, Arrives;
  }
}
