/** The outline of every step of the receiver: which of its fields it can change at all, and which transfer. */
module Shapes {
  import opened Bytes
  import opened Ranges
  import opened Frames
  import opened PreMetadata
  import opened Pacing
  import opened ReceiverModel

  /** At most the transfer under `id` has changed, which was not finalized, and it is still the same object. */
  predicate OneOpen(ts: map<bytes, Transfer>, us: map<bytes, Transfer>, id: bytes)
  {
    || us == ts
    || (id in ts && !ts[id].finalized && id in us && us == ts[id := us[id]]
        && us[id].part == ts[id].part && us[id].manifest == ts[id].manifest && us[id].dest == ts[id].dest)
  }

  /** Only what DATA can change. */
  predicate DataShape(r: Receiver, q: Receiver, id: bytes)
  {
    && q == r.(pre := q.pre, transfers := q.transfers, parts := q.parts, dirty := q.dirty, todo := q.todo)
    && OneOpen(r.transfers, q.transfers, id)
  }

  /** A transfer that has accepted a chunk. */
  function Grown(t: Transfer, index: int, now: real): (u: Transfer)
  {
    t.(received := t.received + (if 0 <= index then {index} else {}), highest := Max(t.highest, index), lastActivity := now,
       lastData := now)
  }

  /** At most the bytes of one part file have changed. */
  predicate PartWritten(parts: map<bytes, bytes>, after: map<bytes, bytes>, part: bytes)
  {
    part in parts && part in after && after == parts[part := after[part]]
  }

  lemma WriteShape(parts: map<bytes, bytes>, part: bytes, start: int, payload: bytes)
    ensures var after := WritePart(parts, part, start, payload); after == parts || PartWritten(parts, after, part)
  {
    hide WriteAt;
  }

  lemma AcceptShape(c: Config, r: Receiver, now: real, id: bytes, index: int, payload: bytes)
    ensures var q := AcceptData(c, r, now, id, index, payload);
            && DataShape(r, q, id)
            && (q.transfers == r.transfers || q.transfers[id] == Grown(r.transfers[id], index, now))
            && (q.parts == r.parts || (id in r.transfers && !r.transfers[id].finalized
                                       && PartWritten(r.parts, q.parts, r.transfers[id].part)))
  {
    hide Buffer, WritePart, Max;
    if id in r.transfers {
      var t := r.transfers[id];
      WriteShape(r.parts, t.part, index * t.manifest.chunkSize, payload);
      hide PartWritten;
      if t.done || t.finalized || index >= t.manifest.totalChunks
         || index * t.manifest.chunkSize + |payload| > t.manifest.fileSize {
      } else {
      }
    }
  }

  /** Only what METADATA can change before its lock, and under it. */
  predicate AnswerShape(r: Receiver, q: Receiver)
  {
    q == r.(cache := q.cache, todo := q.todo)
  }

  lemma MetadataShape(h: Host, c: Config, r: Receiver, m: Manifest)
    ensures AnswerShape(r, HandleMetadata(h, c, r, m).state)
  {
    hide Matching, FileInfoQuery;
    if FileInfoQuery(m) || h.dest(m.name).None? {
    } else if Matching(h, r, h.dest(m.name).value, m).NoMatch? {
    } else {
    }
  }

  predicate OpeningShape(r: Receiver, q: Receiver)
  {
    q == r.(transfers := q.transfers, index := q.index, parts := q.parts, pre := q.pre, dirty := q.dirty, todo := q.todo)
  }

  lemma RegisterShape(h: Host, c: Config, r: Receiver, now: real, m: Manifest)
    ensures OpeningShape(r, RegisterTransfer(h, c, r, now, m).state)
  {
    hide AdvertiseState, Popped, Pop, WithoutIndex, Zeros;
    if h.dest(m.name).None? || m.id in r.transfers {
    } else if SignatureOf(m) in FoundIndex(r, SignatureOf(m)) {
    } else {
    }
  }

  /** Only what a timer or a beacon can change. */
  predicate TimerShape(r: Receiver, q: Receiver, id: bytes)
  {
    && q == r.(transfers := q.transfers, dirty := q.dirty, todo := q.todo)
    && OneOpen(r.transfers, q.transfers, id)
  }

  lemma BeaconShape(r: Receiver, now: real, id: bytes)
    ensures TimerShape(r, HandleBeacon(r, now, id), id)
  {
  }

  lemma RepairTickShape(c: Config, r: Receiver, now: real, id: bytes)
    ensures TimerShape(r, RepairTick(c, r, now, id).state, id)
  {
    hide Periodic, MissingOf;
    if id in r.transfers && !r.transfers[id].done && !r.transfers[id].finalized {
    } else {
    }
  }

  lemma StaleShape(c: Config, r: Receiver, now: real, id: bytes)
    ensures TimerShape(r, StaleCheck(c, r, now, id), id)
  {
    hide MissingOf, StaleReset;
    if id in r.transfers && !r.transfers[id].finalized {
    } else {
    }
  }

  predicate JournalShape(r: Receiver, q: Receiver)
  {
    q == r.(journal := q.journal, dirty := q.dirty, lastFlush := q.lastFlush)
  }

  lemma FlushShape(c: Config, r: Receiver, now: real, force: bool)
    ensures JournalShape(r, Flush(c, r, now, force))
  {
    hide JournalOf;
  }

  /** A request to finalize: nothing, or the flag of a transfer that did not have it, and one more job. */
  predicate QueueShape(r: Receiver, q: Receiver, id: bytes, missing: seq<Range>)
  {
    || q == r
    || (id in r.transfers && !r.transfers[id].finalized
        && q == r.(transfers := r.transfers[id := r.transfers[id].(finalized := true)],
                   queue := r.queue + [Job(r.transfers[id].part, missing)],
                   journal := q.journal, dirty := q.dirty, lastFlush := q.lastFlush))
  }

  lemma QueueingShape(c: Config, r: Receiver, now: real, id: bytes, missing: seq<Range>)
    ensures QueueShape(r, QueueFinalization(c, r, now, id, missing), id, missing)
  {
    if id in r.transfers && !r.transfers[id].finalized {
      FlushShape(c, r.(transfers := r.transfers[id := r.transfers[id].(finalized := true)], dirty := true), now, true);
      hide Flush;
    }
  }

  predicate BeginShape(r: Receiver, q: Receiver)
    requires r.queue != []
  {
    || q == r
    || q == r.(queue := r.queue[1..], parts := q.parts, finals := q.finals, working := q.working)
  }

  lemma BeginningShape(h: Host, c: Config, r: Receiver, id: bytes, fileTime: int)
    requires r.queue != [] && id in r.transfers && r.transfers[id].part == r.queue[0].part
    ensures var q := FinalizeBegin(h, c, r, id, fileTime);
            && BeginShape(r, q) && (q == r || (q.working.Some? && q.working.value.part == r.queue[0].part))
  {
    hide SourceMtime;
    if r.queue[0].missing != [] {
    } else if r.transfers[id].part !in r.parts {
    } else if h.sha(r.parts[r.transfers[id].part]) != r.transfers[id].manifest.sha {
    } else {
    }
  }

  /** The end of a finalization: the transfer under its first id goes, the others are as they were but for the done flag of
      the one that was finalized. */
  predicate EndShape(r: Receiver, q: Receiver)
    requires r.working.Some?
  {
    var v := r.working.value;
    && q == r.(transfers := MarkDone(r.transfers, v.part, v.state.COMPLETE?) - {v.id}, index := q.index, cache := q.cache,
               working := None, dirty := q.dirty, journal := q.journal, lastFlush := q.lastFlush)
  }

  lemma EndingShape(c: Config, r: Receiver, now: real)
    requires r.working.Some?
    ensures EndShape(r, FinalizeEnd(c, r, now).state)
  {
    hide MarkDone, WithoutIndex, JournalOf;
  }

  // ---------------------------------------------------------------- whole turns

  /** Neither the final files nor what is known of them has changed. */
  predicate SameFiles(r: Receiver, q: Receiver)
  {
    q.finals == r.finals && q.cache == r.cache && q.working == r.working
  }

  lemma TaskSameFiles(h: Host, c: Config, r: Receiver, now: real)
    requires r.todo != []
    ensures SameFiles(r, RunTask(h, c, r, now).state)
  {
    var rest := r.(todo := r.todo[1..]);
    hide RegisterTransfer, AcceptData, QueueFinalization, AdvertiseState, OneOpen;
    match r.todo[0] {
      case Register(m) => RegisterShape(h, c, rest, now, m);
      case Replay(id, index, payload) => AcceptShape(c, rest, now, id, index, payload);
      case Queue(id, missing) => QueueingShape(c, rest, now, id, missing);
      case Advertise(id) =>
    }
  }
}
