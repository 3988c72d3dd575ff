/** The answers to METADATA for a file that is already there: when they are wrong, whether the cache of hashes can be the
    reason, and that a wrong answer does end in a send that reports completed. */
module Answers {
  import opened Bytes
  import opened Ranges
  import opened Frames
  import opened Repair
  import opened PreMetadata
  import opened Pacing
  import opened ReceiverModel
  import opened Shapes
  import opened Safety
  import opened Invariant
  import opened InvariantSteps
  import opened System
  import opened Theorems
  import opened Runs

  // ---------------------------------------------------------------- when an answer is wrong

  /** The cache has the file's size and time with the manifest's hash. */
  predicate CacheVouches(r: Receiver, dest: bytes, m: Manifest)
    requires dest in r.finals
  {
    dest in r.cache && r.cache[dest] == CacheEntry(|r.finals[dest].content|, r.finals[dest].mtime, m.sha)
  }

  /** A METADATA that asks for the file at `dest`, where a file with another hash is. */
  ghost predicate OtherFileThere(h: Host, c: Config, r: Receiver, m: Manifest, dest: bytes)
  {
    && !FileInfoQuery(m) && h.dest(m.name) == Some(dest) && c.pacing.feedback
    && dest in r.finals && h.sha(r.finals[dest].content) != m.sha
  }

  /** Exactly when COMPLETE is answered for a file with another hash: the size agrees, and either the cache vouches for the
      manifest's hash or the time agrees. */
  lemma WrongAnswerIff(h: Host, c: Config, r: Receiver, m: Manifest, dest: bytes)
    requires OtherFileThere(h, c, r, m, dest)
    ensures HandleMetadata(h, c, r, m).sent == [CompleteStatus(m.id)]
       <==> |r.finals[dest].content| == m.fileSize
            && (CacheVouches(r, dest, m) || SourceMtime(m) == Some(r.finals[dest].mtime))
  {
  }

  // ---------------------------------------------------------------- the cache

  /** A finalization has published a file at `p` and not yet recorded it. */
  predicate Publishing(r: Receiver, p: bytes)
  {
    r.working.Some? && r.working.value.cached.Some? && r.working.value.dest == p
  }

  /** Outside a publication, a cache entry with a file's size and time has the file's hash; and the entry that a
      publication is about to record has the hash of the file it published. */
  ghost predicate CacheTrue(h: Host, r: Receiver)
  {
    && (forall p :: p in r.finals && p in r.cache && !Publishing(r, p) ==> EntryTrue(h, r.finals[p], r.cache[p]))
    && (r.working.Some? && r.working.value.cached.Some? ==>
          var v := r.working.value;
          v.dest in r.finals && h.sha(r.finals[v.dest].content) == v.cached.value.sha)
  }

  predicate EntryTrue(h: Host, f: FinalFile, e: CacheEntry)
  {
    e.size == |f.content| && e.mtime == f.mtime ==> e.sha == h.sha(f.content)
  }

  lemma MetadataCache(h: Host, c: Config, r: Receiver, m: Manifest)
    requires CacheTrue(h, r)
    ensures CacheTrue(h, HandleMetadata(h, c, r, m).state)
  {
    hide FileInfoQuery, SourceMtime;
    if FileInfoQuery(m) || h.dest(m.name).None? {
    } else {
      var dest := h.dest(m.name).value;
      MatchCache(h, r, m, dest);
      hide Matching;
      if Matching(h, r, dest, m).NoMatch? {
      } else {
      }
    }
  }

  /** The entry that a match by hash makes is true. */
  lemma MatchCache(h: Host, r: Receiver, m: Manifest, dest: bytes)
    ensures Matching(h, r, dest, m).ByHash? ==> dest in r.finals && h.sha(r.finals[dest].content) == m.sha
  {
    hide SourceMtime;
  }

  lemma HandleCache(h: Host, c: Config, r: Receiver, now: real, raw: bytes)
    requires CacheTrue(h, r)
    ensures CacheTrue(h, Handle(h, c, r, now, raw).state)
  {
    hide Decode, AcceptData, HandleMetadata, OneOpen;
    match Decode(raw) {
      case Ok(MetadataMsg(m)) => MetadataCache(h, c, r, m);
      case Ok(DataMsg(d)) => AcceptShape(c, r, now, d.id, d.index, d.payload);
      case _ =>
    }
  }

  lemma BeginCache(h: Host, c: Config, r: Receiver, id: bytes, fileTime: int)
    requires CacheTrue(h, r) && r.working.None?
    requires r.queue != [] && id in r.transfers && r.transfers[id].part == r.queue[0].part
    ensures CacheTrue(h, FinalizeBegin(h, c, r, id, fileTime))
  {
    hide FinalizeBegin;
    BeginningShape(h, c, r, id, fileTime);
    BeginRecords(h, c, r, id, fileTime);
  }

  /** The files and the entry to be recorded after the first half of a finalization. */
  lemma BeginRecords(h: Host, c: Config, r: Receiver, id: bytes, fileTime: int)
    requires r.working.None? && r.queue != [] && id in r.transfers && r.transfers[id].part == r.queue[0].part
    ensures var q := FinalizeBegin(h, c, r, id, fileTime);
            if q.working.Some? && q.working.value.cached.Some? then
              var v := q.working.value;
              v.dest in q.finals && q.finals == r.finals[v.dest := q.finals[v.dest]]
              && h.sha(q.finals[v.dest].content) == v.cached.value.sha
            else q.finals == r.finals
  {
    hide SourceMtime;
    if r.queue[0].missing != [] {
    } else if r.transfers[id].part !in r.parts {
    } else if h.sha(r.parts[r.transfers[id].part]) != r.transfers[id].manifest.sha {
    } else {
    }
  }

  lemma EndCache(h: Host, c: Config, r: Receiver, now: real)
    requires CacheTrue(h, r) && r.working.Some?
    ensures CacheTrue(h, FinalizeEnd(c, r, now).state)
  {
    hide MarkDone, WithoutIndex, JournalOf;
  }

  lemma CacheStep(w: World, c: Config, s: Sys, e: Event)
    requires CacheTrue(w.host, s.receiver)
    ensures CacheTrue(w.host, Step(w, c, s, e).receiver)
  {
    StepReceiver(w, c, s, e);
    var r := s.receiver;
    hide CacheTrue, Step, Handle, RunTask, FinalizeBegin, FinalizeEnd, Restart, RepairTick, StaleCheck, Flush, EvictExpired,
         Honest, Arrives;
    if Enabled(w, s, e) {
      match e
      case Deliver(raw, now) => HandleCache(w.host, c, r, now, raw);
      case BeginFinalize(id, fileTime) => BeginCache(w.host, c, r, id, fileTime);
      case EndFinalize(now) => EndCache(w.host, c, r, now);
      case CrashRestart(now) => RestartCache(w.host, c, r, now);
      case _ =>
        QuietSameFiles(w, c, s, e);
        SameFilesTrue(w.host, r, ReceiverAfter(w, c, s, e));
    }
  }

  lemma QuietSameFiles(w: World, c: Config, s: Sys, e: Event)
    requires Enabled(w, s, e) && !e.Deliver? && !e.BeginFinalize? && !e.EndFinalize? && !e.CrashRestart?
    ensures SameFiles(s.receiver, ReceiverAfter(w, c, s, e))
  {
    var r := s.receiver;
    hide RunTask, RepairTick, StaleCheck, Flush, EvictExpired, Honest, OneOpen;
    match e
    case MainTask(now) => TaskSameFiles(w.host, c, r, now);
    case RepairTimer(id, now) => RepairTickShape(c, r, now, id);
    case StaleTimer(id, now) => StaleShape(c, r, now, id);
    case FlushTimer(now) => FlushShape(c, r, now, false);
    case _ =>
  }

  lemma SameFilesTrue(h: Host, r: Receiver, q: Receiver)
    requires CacheTrue(h, r) && SameFiles(r, q)
    ensures CacheTrue(h, q)
  {
  }

  lemma RestartCache(h: Host, c: Config, r: Receiver, now: real)
    ensures CacheTrue(h, Restart(h, c, r, now))
  {
    hide JournalOf, RestoredTransfers, IndexOf;
  }

  lemma {:induction false} CacheRun(w: World, c: Config, s: Sys, events: seq<Event>, n: nat)
    requires Init(w, s) && n <= |events|
    ensures CacheTrue(w.host, Run(w, c, s, events, n).receiver)
  {
    hide CacheTrue, Step, Init;
    if n == 0 {
      StartCache(w, s);
    } else {
      CacheRun(w, c, s, events, n - 1);
      CacheStep(w, c, Run(w, c, s, events, n - 1), events[n - 1]);
    }
  }

  lemma StartCache(w: World, s: Sys)
    requires Init(w, s)
    ensures CacheTrue(w.host, s.receiver)
  {
  }

  /** In every reachable state, unless a finalization has published at that path and not yet recorded it, a cache match
      means that the file has the manifest's hash, and COMPLETE is answered for a file with another hash if and only if
      size and time agree. */
  lemma CacheIsTrue(w: World, c: Config, s: Sys, events: seq<Event>, m: Manifest, dest: bytes)
    requires Init(w, s)
    ensures var r := Run(w, c, s, events, |events|).receiver;
            dest in r.finals && !Publishing(r, dest) ==>
              && (CacheVouches(r, dest, m) ==> w.host.sha(r.finals[dest].content) == m.sha)
              && (OtherFileThere(w.host, c, r, m, dest) ==>
                    (HandleMetadata(w.host, c, r, m).sent == [CompleteStatus(m.id)] <==>
                     |r.finals[dest].content| == m.fileSize && SourceMtime(m) == Some(r.finals[dest].mtime)))
  {
    CacheRun(w, c, s, events, |events|);
    var r := Run(w, c, s, events, |events|).receiver;
    hide Run, Init;
    if OtherFileThere(w.host, c, r, m, dest) {
      WrongAnswerIff(w.host, c, r, m, dest);
    }
    hide HandleMetadata, OtherFileThere;
  }

  // ---------------------------------------------------------------- the window of a publication

  /** Two one-chunk files of one size and one time, for one destination, whose hashes differ. */
  ghost predicate Twins(w: World, a: Manifest, b: Manifest)
  {
    && OneChunk(w, a) && OneChunk(w, b) && a.name == b.name && a.fileSize == b.fileSize && a.sha != b.sha
    && w.host.sha(w.source(SignatureOf(a))) == a.sha && w.host.sha(w.source(SignatureOf(b))) == b.sha
    && SourceMtime(a).Some? && SourceMtime(b) == SourceMtime(a)
  }

  ghost function BothArrive(w: World, a: Manifest, b: Manifest, now: real): (events: seq<Event>)
    requires OneChunk(w, a) && OneChunk(w, b)
  {
    OneChunkFacts(w, a);
    OneChunkFacts(w, b);
    ArrivalRun(w, a, now) + ArrivalRun(w, b, now)
  }

  /** Both are waiting to be finalized, nothing is at their destination. */
  ghost predicate BothQueued(w: World, r: Receiver, a: Manifest, b: Manifest)
  {
    && a.id in r.transfers && b.id in r.transfers && a.id != b.id && w.host.dest(a.name).Some?
    && Waiting(w, r, a) && Waiting(w, r, b)
    && r.queue == [Job(a.id, []), Job(b.id, [])] && r.working.None? && r.todo == []
  }

  ghost predicate Waiting(w: World, r: Receiver, m: Manifest)
  {
    && m.id in r.transfers && w.host.dest(m.name) == Some(r.transfers[m.id].dest)
    && r.transfers[m.id].manifest == m && r.transfers[m.id].part == m.id
    && m.id in r.parts && r.parts[m.id] == w.source(SignatureOf(m))
  }

  lemma TwinsApart(w: World, a: Manifest, b: Manifest)
    requires Twins(w, a, b)
    ensures a.id != b.id && SignatureOf(a) != SignatureOf(b)
  {
  }

  lemma StillWelcomes(w: World, s: Sys, q: Receiver, a: Manifest, b: Manifest)
    requires Init(w, s) && Twins(w, a, b) && w.host.dest(a.name).value !in s.receiver.finals
    requires Arrived(w, s.receiver, q, a)
    ensures Welcomes(w, q, b)
  {
    TwinsApart(w, a, b);
  }

  lemma BothWait(w: World, c: Config, s: Sys, a: Manifest, b: Manifest, now: real)
    requires Init(w, s) && Twins(w, a, b) && w.host.dest(a.name).value !in s.receiver.finals
    ensures var t := Final(w, c, s, BothArrive(w, a, b, now));
            && BothQueued(w, t.receiver, a, b)
            && Encode(MetadataMsg(a)).Ok? && Encode(MetadataMsg(a)).value in t.net
  {
    TwinsApart(w, a, b);
    OneChunkFacts(w, a);
    OneChunkFacts(w, b);
    FreshWelcomes(w, s, a);
    var one, two := ArrivalRun(w, a, now), ArrivalRun(w, b, now);
    var u := Final(w, c, s, one);
    FinalAppend(w, c, s, one, two);
    ArrivalArrives(w, c, s, a, now);
    StillWelcomes(w, s, u.receiver, a, b);
    ArrivalArrives(w, c, u, b, now);
    var t := Final(w, c, u, two);
    assert s.receiver.queue == [] && s.receiver.working.None?;
    assert BothArrive(w, a, b, now) == one + two;
    hide *;
    hide Arrived, BothQueued, Twins;
    ArrivedBoth(w, s.receiver, u.receiver, t.receiver, a, b);
  }

  lemma ArrivedBoth(w: World, r: Receiver, p: Receiver, q: Receiver, a: Manifest, b: Manifest)
    requires r.queue == [] && r.working.None? && a.id != b.id && a.name == b.name
    requires Arrived(w, r, p, a) && Arrived(w, p, q, b)
    ensures BothQueued(w, q, a, b)
  {
    assert [] + [Job(a.id, [])] + [Job(b.id, [])] == [Job(a.id, []), Job(b.id, [])];
  }

  /** The first twin is published and recorded, the second only published. */
  lemma PublishTwins(w: World, c: Config, r: Receiver, a: Manifest, b: Manifest, fileTime: int, now: real)
    requires Twins(w, a, b) && BothQueued(w, r, a, b)
    ensures var dest := w.host.dest(a.name).value;
            var r1 := FinalizeBegin(w.host, c, r, a.id, fileTime);
            r1.working.Some? &&
            var r2 := FinalizeEnd(c, r1, now).state;
            && r2.working.None? && r2.queue == [Job(b.id, [])] && b.id in r2.transfers && r2.transfers[b.id].part == b.id
            && var r3 := FinalizeBegin(w.host, c, r2, b.id, fileTime);
               && r3.todo == [] && Publishing(r3, dest) && dest in r3.finals && CacheVouches(r3, dest, a)
               && r3.finals[dest].content == w.source(SignatureOf(b))
  {
    var dest := w.host.dest(a.name).value;
    TwinSizes(w, a, b);
    BeginPublishes(w, c, r, a, dest, fileTime);
    var r1 := FinalizeBegin(w.host, c, r, a.id, fileTime);
    EndRecords(c, r1, now, b.id);
    var r2 := FinalizeEnd(c, r1, now).state;
    assert [Job(a.id, []), Job(b.id, [])][1..] == [Job(b.id, [])];
    hide FinalizeBegin, FinalizeEnd, OneChunk, SourceMtime;
    BeginPublishes(w, c, r2, b, dest, fileTime);
  }

  lemma TwinSizes(w: World, a: Manifest, b: Manifest)
    requires Twins(w, a, b)
    ensures |w.source(SignatureOf(a))| == |w.source(SignatureOf(b))| == a.fileSize
  {
  }

  /** A waiting transfer whose hash is right is published, with the source's time. */
  lemma BeginPublishes(w: World, c: Config, r: Receiver, m: Manifest, dest: bytes, fileTime: int)
    requires Waiting(w, r, m) && r.queue != [] && r.queue[0] == Job(m.id, []) && w.host.dest(m.name) == Some(dest)
    requires w.host.sha(w.source(SignatureOf(m))) == m.sha && SourceMtime(m).Some?
    ensures var q := FinalizeBegin(w.host, c, r, m.id, fileTime);
            var source, time := w.source(SignatureOf(m)), SourceMtime(m).value;
            && q.finals == r.finals[dest := FinalFile(source, time)]
            && q.working == Some(Verdict(m.id, m.id, dest, COMPLETE, [], Some(CacheEntry(|source|, time, m.sha))))
            && q.transfers == r.transfers && q.cache == r.cache && q.todo == r.todo && q.queue == r.queue[1..]
            && (forall p :: p in r.parts && p != m.id ==> p in q.parts && q.parts[p] == r.parts[p])
  {
    hide SourceMtime;
  }

  /** The record of a verdict: the cache entry, and every other transfer as it was. */
  lemma EndRecords(c: Config, r: Receiver, now: real, other: bytes)
    requires r.working.Some? && r.working.value.cached.Some?
    requires other in r.transfers && other != r.working.value.id && r.transfers[other].part != r.working.value.part
    ensures var v, q := r.working.value, FinalizeEnd(c, r, now).state;
            && q.cache == r.cache[v.dest := v.cached.value] && q.working.None? && q.todo == r.todo && q.queue == r.queue
            && q.finals == r.finals && q.parts == r.parts
            && other in q.transfers && q.transfers[other] == r.transfers[other]
  {
    hide JournalOf, WithoutIndex;
  }

  lemma AnswersByCache(h: Host, c: Config, r: Receiver, m: Manifest, dest: bytes, raw: bytes, now: real)
    requires Decode(raw) == Ok(MetadataMsg(m)) && !FileInfoQuery(m) && c.pacing.feedback
    requires h.dest(m.name) == Some(dest) && dest in r.finals && CacheVouches(r, dest, m)
    requires |r.finals[dest].content| == m.fileSize
    ensures Handle(h, c, r, now, raw) == Outcome(r, [CompleteStatus(m.id)])
  {
    hide Decode, FileInfoQuery, SourceMtime;
  }

  ghost function WindowRun(w: World, a: Manifest, b: Manifest, fileTime: int, now: real): (events: seq<Event>)
    requires Encode(MetadataMsg(a)).Ok?
    ensures |events| == 4
  {
    [BeginFinalize(a.id, fileTime), EndFinalize(now), BeginFinalize(b.id, fileTime),
     Deliver(Encode(MetadataMsg(a)).value, now)]
  }

  /** The exception of `CacheIsTrue` is real: while the second of two files of one size and time is published and not yet
      recorded, the cache still vouches for the first, and COMPLETE is answered for it although the file there is the
      second. */
  lemma CacheIsStaleInWindow(w: World, c: Config, s: Sys, a: Manifest, b: Manifest, fileTime: int, now: real)
    requires Init(w, s) && c.pacing.feedback && Twins(w, a, b) && w.host.dest(a.name).value !in s.receiver.finals
    ensures Encode(MetadataMsg(a)).Ok? && Encode(CompleteStatus(a.id)).Ok?
    ensures var t := Final(w, c, s, BothArrive(w, a, b, now) + WindowRun(w, a, b, fileTime, now));
            var dest := w.host.dest(a.name).value;
            && Publishing(t.receiver, dest) && dest in t.receiver.finals && CacheVouches(t.receiver, dest, a)
            && t.receiver.finals[dest].content == w.source(SignatureOf(b))
            && w.host.sha(t.receiver.finals[dest].content) != a.sha
            && Encode(CompleteStatus(a.id)).value in t.net
  {
    HonestEncodes(w, a);
    OneChunkFacts(w, b);
    var both, more, dest := BothArrive(w, a, b, now), WindowRun(w, a, b, fileTime, now), w.host.dest(a.name).value;
    var u := Final(w, c, s, both);
    BothWait(w, c, s, a, b, now);
    FinalAppend(w, c, s, both, more);
    TwinSizes(w, a, b);
    assert Twins(w, a, b) && !FileInfoQuery(a) && a.sha != b.sha && w.host.sha(w.source(SignatureOf(b))) == b.sha;
    hide *;
    WindowFrom(w, c, u, a, b, fileTime, now);
  }

  lemma BothFirst(w: World, r: Receiver, a: Manifest, b: Manifest)
    requires BothQueued(w, r, a, b)
    ensures r.working.None? && r.queue != [] && r.queue[0] == Job(a.id, []) && r.transfers[a.id].part == a.id
  {
  }

  lemma WindowFrom(w: World, c: Config, u: Sys, a: Manifest, b: Manifest, fileTime: int, now: real)
    requires BothQueued(w, u.receiver, a, b) && c.pacing.feedback && Twins(w, a, b)
    requires Announceable(w, a) && Encode(CompleteStatus(a.id)).Ok? && Encode(MetadataMsg(a)).value in u.net
    requires Decode(Encode(MetadataMsg(a)).value) == Ok(MetadataMsg(a))
    ensures w.host.dest(a.name).Some?
    ensures var t, dest := Final(w, c, u, WindowRun(w, a, b, fileTime, now)), w.host.dest(a.name).value;
            && Publishing(t.receiver, dest) && dest in t.receiver.finals && CacheVouches(t.receiver, dest, a)
            && t.receiver.finals[dest].content == w.source(SignatureOf(b))
            && Encode(CompleteStatus(a.id)).value in t.net
  {
    PublishTwins(w, c, u.receiver, a, b, fileTime, now);
    SingleDatagram(CompleteStatus(a.id));
    TwinSizes(w, a, b);
    var more, ask, dest := WindowRun(w, a, b, fileTime, now), Encode(MetadataMsg(a)).value, w.host.dest(a.name).value;
    assert more == [BeginFinalize(a.id, fileTime), EndFinalize(now), BeginFinalize(b.id, fileTime), Deliver(ask, now)];
    assert !FileInfoQuery(a);
    BothFirst(w, u.receiver, a, b);
    hide *;
    hide Publishing, CacheVouches;
    FinalIs(w, c, u, more);
    Unrolled(w, c, u, more);
    var u1, u2, u3 := Run(w, c, u, more, 1), Run(w, c, u, more, 2), Run(w, c, u, more, 3);
    BeginEnabled(w, u, a.id, fileTime);
    Begins(w, c, u, a.id, fileTime);
    Ends(w, c, u1, now);
    BeginEnabled(w, u2, b.id, fileTime);
    Begins(w, c, u2, b.id, fileTime);
    AnswersByCache(w.host, c, u3.receiver, a, dest, ask, now);
    Delivers(w, c, u3, ask, now, u3.receiver, [CompleteStatus(a.id)]);
  }

  // ---------------------------------------------------------------- a send answered by size and time

  /** A send that streams nothing and is told COMPLETE at once. */
  ghost function ShortcutRun(m: Manifest, now: real): (events: seq<Event>)
    requires Encode(MetadataMsg(m)).Ok? && Encode(CompleteStatus(m.id)).Ok?
    ensures |events| == 5
  {
    [StartSend(m, false), SendMetadata(m.id), Deliver(Encode(MetadataMsg(m)).value, now),
     SenderReceive(m.id, Encode(CompleteStatus(m.id)).value), SenderEndStream(m.id)]
  }

  /** The receiver's answer by size and time. */
  lemma AnswersByTime(w: World, c: Config, r: Receiver, m: Manifest, dest: bytes, raw: bytes, now: real)
    requires Decode(raw) == Ok(MetadataMsg(m)) && OtherFileThere(w.host, c, r, m, dest) && !CacheVouches(r, dest, m)
    requires |r.finals[dest].content| == m.fileSize && SourceMtime(m) == Some(r.finals[dest].mtime)
    ensures Handle(w.host, c, r, now, raw) == Outcome(r, [CompleteStatus(m.id)])
  {
    hide Decode, FileInfoQuery, SourceMtime;
  }

  /** The answer is shorter than the question. */
  lemma CompleteArrives(w: World, m: Manifest)
    requires Honest(w, m) && Announceable(w, m)
    ensures Encode(CompleteStatus(m.id)).Ok? && Arrives(w, Encode(CompleteStatus(m.id)).value)
  {
    StatusSendable(m.id, COMPLETE, [], 0);
    HonestEncodes(w, m);
    MetadataSize(m, Encode(MetadataMsg(m)).value);
    hide Encode, Decode, Honest;
  }

  lemma MetadataSize(m: Manifest, raw: bytes)
    requires Decode(raw) == Ok(MetadataMsg(m))
    ensures |raw| >= HEADER_SIZE + MANIFEST_FIXED
  {
    hide ParseTlvs;
  }

  lemma HearsComplete(m: Manifest, raw: bytes)
    requires Decode(raw) == Ok(CompleteStatus(m.id))
    ensures OnDatagram(Endpoint(m, Streaming(false, false)), raw) == Endpoint(m, Streaming(false, true))
  {
    hide Decode;
  }

  lemma StartsAndAsks(w: World, c: Config, s: Sys, m: Manifest)
    requires Honest(w, m) && Encode(MetadataMsg(m)).Ok?
    ensures var u := Step(w, c, Step(w, c, s, StartSend(m, false)), SendMetadata(m.id));
            && u.receiver == s.receiver && Encode(MetadataMsg(m)).value in u.net
            && m.id in u.senders && u.senders[m.id] == Endpoint(m, Streaming(false, false))
  {
    SingleDatagram(MetadataMsg(m));
    hide Honest, Encode, Datagrams;
  }

  lemma IsAnswered(w: World, c: Config, s: Sys, raw: bytes, now: real, m: Manifest)
    requires raw in s.net && Arrives(w, raw) && s.receiver.todo == [] && Encode(CompleteStatus(m.id)).Ok?
    requires Handle(w.host, c, s.receiver, now, raw) == Outcome(s.receiver, [CompleteStatus(m.id)])
    ensures var u := Step(w, c, s, Deliver(raw, now));
            u.receiver == s.receiver && u.senders == s.senders && Encode(CompleteStatus(m.id)).value in u.net
  {
    SingleDatagram(CompleteStatus(m.id));
    Delivers(w, c, s, raw, now, s.receiver, [CompleteStatus(m.id)]);
    hide Step, Handle, Encode, Datagrams, CompleteStatus;
  }

  lemma HearsAndEnds(w: World, c: Config, s: Sys, raw: bytes, m: Manifest)
    requires raw in s.net && Arrives(w, raw) && Decode(raw) == Ok(CompleteStatus(m.id))
    requires m.id in s.senders && s.senders[m.id] == Endpoint(m, Streaming(false, false))
    ensures var u := Step(w, c, s, SenderReceive(m.id, raw));
            var v := Step(w, c, u, SenderEndStream(m.id));
            && u.receiver == v.receiver == s.receiver
            && m.id in v.senders && v.senders[m.id] == Endpoint(m, Finished(true))
  {
    HearsComplete(m, raw);
    hide OnDatagram, Decode;
  }

  /** No state of the run so far has had a final file with the hash at the path. */
  ghost predicate NeverHad(w: World, c: Config, s: Sys, events: seq<Event>, dest: bytes, hash: bytes)
  {
    forall j :: 0 <= j <= |events| ==> !HadFile(w, Run(w, c, s, events, j).receiver, dest, hash)
  }

  /** Then the cache does not vouch for it either. */
  lemma NeverVouched(w: World, c: Config, s: Sys, events: seq<Event>, dest: bytes, m: Manifest)
    requires Init(w, s) && NeverHad(w, c, s, events, dest, m.sha)
    ensures var r := Final(w, c, s, events).receiver;
            dest in r.finals ==> !CacheVouches(r, dest, m) && w.host.sha(r.finals[dest].content) != m.sha
  {
    RunOk(w, c, s, events, |events|);
    var t := Final(w, c, s, events);
    SysReceiver(w, t);
    if dest in t.receiver.finals && CacheVouches(t.receiver, dest, m) {
      assert FilesOk(w, t.history, t.receiver.finals, t.receiver.cache);
      SeenWasThere(w, c, s, events, |events|, dest, m.sha);
    }
    hide Init, SysInv, Inv;
    assert Run(w, c, s, events, |events|) == t;
  }

  /** The exception is real, in any reachable state, whether or not the file there is in the cache: with a final file of the
      right size and time but another hash at the destination, the run goes on so that the sender reports completed although
      no state, before or after, has a file with the manifest's hash there. */
  lemma ShortcutDefeatsAgreement(w: World, c: Config, s: Sys, events: seq<Event>, m: Manifest, dest: bytes, now: real)
    requires Init(w, s) && Honest(w, m) && Announceable(w, m) && NeverHad(w, c, s, events, dest, m.sha)
    requires var r := Final(w, c, s, events).receiver;
             && r.todo == [] && OtherFileThere(w.host, c, r, m, dest)
             && |r.finals[dest].content| == m.fileSize && SourceMtime(m) == Some(r.finals[dest].mtime)
    ensures Encode(MetadataMsg(m)).Ok? && Encode(CompleteStatus(m.id)).Ok?
    ensures var all := events + ShortcutRun(m, now);
            && m.id in Final(w, c, s, all).senders && Final(w, c, s, all).senders[m.id] == Endpoint(m, Finished(true))
            && NeverHad(w, c, s, all, dest, m.sha)
  {
    HonestEncodes(w, m);
    NeverVouched(w, c, s, events, dest, m);
    var u, more := Final(w, c, s, events), ShortcutRun(m, now);
    ShortcutFrom(w, c, u, m, dest, now);
    FinalAppend(w, c, s, events, more);
    forall j | 0 <= j <= |events + more|
      ensures !HadFile(w, Run(w, c, s, events + more, j).receiver, dest, m.sha)
    {
      RunAppend(w, c, s, events, more, j);
      hide HadFile, Run, Init, Encode, Decode, OtherFileThere, SourceMtime, ShortcutRun, Honest;
      assert HadFile(w, Run(w, c, s, events + more, j).receiver, dest, m.sha) ==> j > |events|;
      assert Run(w, c, s, events, |events|) == u;
    }
  }

  lemma ShortcutFrom(w: World, c: Config, s: Sys, m: Manifest, dest: bytes, now: real)
    requires Honest(w, m) && Announceable(w, m) && s.receiver.todo == []
    requires OtherFileThere(w.host, c, s.receiver, m, dest)
    requires !CacheVouches(s.receiver, dest, m)
    requires var r := s.receiver; |r.finals[dest].content| == m.fileSize && SourceMtime(m) == Some(r.finals[dest].mtime)
    ensures Encode(MetadataMsg(m)).Ok? && Encode(CompleteStatus(m.id)).Ok?
    ensures var t := Final(w, c, s, ShortcutRun(m, now));
            m.id in t.senders && t.senders[m.id] == Endpoint(m, Finished(true))
    ensures forall j :: 0 <= j <= 5 ==> Run(w, c, s, ShortcutRun(m, now), j).receiver == s.receiver
  {
    hide Honest, Encode, Decode, OtherFileThere, CacheVouches, SourceMtime, Step, Run;
    HonestEncodes(w, m);
    var ask, answer, events := Encode(MetadataMsg(m)).value, Encode(CompleteStatus(m.id)).value, ShortcutRun(m, now);
    AnswersByTime(w, c, s.receiver, m, dest, ask, now);
    CompleteArrives(w, m);
    assert Arrives(w, ask);
    hide *;
    Unrolled(w, c, s, events);
    assert Final(w, c, s, events) == Run(w, c, s, events, 5);
    var s2 := Run(w, c, s, events, 2);
    StartsAndAsks(w, c, s, m);
    StartOnly(w, c, s, m);
    ShortcutEvents(m, now);
    IsAnswered(w, c, s2, ask, now, m);
    HearsAndEnds(w, c, Run(w, c, s, events, 3), answer, m);
    forall j | 0 <= j <= 5 ensures Run(w, c, s, events, j).receiver == s.receiver {
      assert j == 0 || j == 1 || j == 2 || j == 3 || j == 4 || j == 5;
    }
  }

  lemma StartOnly(w: World, c: Config, s: Sys, m: Manifest)
    ensures Step(w, c, s, StartSend(m, false)).receiver == s.receiver
  {
    hide Honest;
  }

  lemma ShortcutEvents(m: Manifest, now: real)
    requires Encode(MetadataMsg(m)).Ok? && Encode(CompleteStatus(m.id)).Ok?
    ensures var e := ShortcutRun(m, now);
            && e[0] == StartSend(m, false) && e[1] == SendMetadata(m.id)
            && e[2] == Deliver(Encode(MetadataMsg(m)).value, now)
            && e[3] == SenderReceive(m.id, Encode(CompleteStatus(m.id)).value) && e[4] == SenderEndStream(m.id)
  {
    hide Encode;
  }
}
