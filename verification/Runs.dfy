/** Putting runs together, and the run in which a file of one chunk arrives, as a building block for the runs that show
    what the receiver can be brought to. */
module Runs {
  import opened Bytes
  import opened Ranges
  import opened Frames
  import opened Repair
  import opened PreMetadata
  import opened Pacing
  import opened ReceiverModel
  import opened Safety
  import opened Invariant
  import opened System

  // ---------------------------------------------------------------- concatenation

  ghost function Final(w: World, c: Config, s: Sys, events: seq<Event>): (t: Sys)
  {
    Run(w, c, s, events, |events|)
  }

  /** The states of a run that goes on are those of its first part, then those of its second part. */
  lemma {:induction false} RunAppend(w: World, c: Config, s: Sys, a: seq<Event>, b: seq<Event>, n: nat)
    requires n <= |a| + |b|
    ensures Run(w, c, s, a + b, n) == if n <= |a| then Run(w, c, s, a, n) else Run(w, c, Final(w, c, s, a), b, n - |a|)
  {
    hide Step;
    if n > 0 {
      RunAppend(w, c, s, a, b, n - 1);
    }
  }

  lemma FinalAppend(w: World, c: Config, s: Sys, a: seq<Event>, b: seq<Event>)
    ensures Final(w, c, s, a + b) == Final(w, c, Final(w, c, s, a), b)
  {
    RunAppend(w, c, s, a, b, |a| + |b|);
  }

  lemma Unrolled(w: World, c: Config, s: Sys, events: seq<Event>)
    ensures Run(w, c, s, events, 0) == s
    ensures forall j :: 0 <= j < |events| ==> Run(w, c, s, events, j + 1) == Step(w, c, Run(w, c, s, events, j), events[j])
  {
    hide Step;
  }

  /** The run stays sound from any sound state. */
  lemma {:induction false} SoundRun(w: World, c: Config, s: Sys, events: seq<Event>, n: nat)
    requires SysInv(w, s) && n <= |events|
    ensures SysInv(w, Run(w, c, s, events, n))
  {
    hide SysInv, Step;
    if n > 0 {
      SoundRun(w, c, s, events, n - 1);
      StepOk(w, c, Run(w, c, s, events, n - 1), events[n - 1]);
    }
  }

  // ---------------------------------------------------------------- messages that encode

  lemma ManifestEncodes(m: Manifest)
    requires ManifestOk(m) && UniqueKeys(m.metadata)
    ensures EncodeManifest(m).Ok?
  {
    hide BE, FromBE, Pack;
    DictRoundTrip(m.metadata);
    ManifestLayout(ManifestFields(m));
    Widths();
  }

  lemma HonestEncodes(w: World, m: Manifest)
    requires Honest(w, m)
    ensures var x, y := MetadataMsg(m), CompleteStatus(m.id);
            && Encode(x).Ok? && Decode(Encode(x).value) == Ok(x) && Encode(y).Ok? && Decode(Encode(y).value) == Ok(y)
  {
    ManifestEncodes(m);
    assert Elems([]) == {};
    StatusSendable(m.id, COMPLETE, [], 0);
    hide EncodeManifest, EncodeStatus, Decode;
    MessageRoundTrip(MetadataMsg(m));
  }

  lemma SingleDatagram(m: Message)
    requires Encode(m).Ok?
    ensures Datagrams([m]) == {Encode(m).value}
  {
    hide Encode;
    assert [m][0] == m;
  }

  // ---------------------------------------------------------------- a file of one chunk

  /** The METADATA of a manifest is encoded into a datagram that arrives. */
  predicate Announceable(w: World, m: Manifest)
  {
    Encode(MetadataMsg(m)).Ok? && Arrives(w, Encode(MetadataMsg(m)).value)
  }

  /** A file of one chunk whose METADATA and DATA arrive, for a destination that is accepted. */
  ghost predicate OneChunk(w: World, m: Manifest)
  {
    && Honest(w, m) && Announceable(w, m) && m.totalChunks == 1 && m.fileSize <= Room(w)
    && !FileInfoQuery(m) && w.host.dest(m.name).Some?
  }

  function DataOf(w: World, m: Manifest): (x: Message)
  {
    DataMsg(Chunk(m.id, 0, w.source(SignatureOf(m))))
  }

  lemma OneChunkFacts(w: World, m: Manifest)
    requires OneChunk(w, m)
    ensures m.chunkSize > 0 && 0 < m.fileSize <= m.chunkSize && |w.source(SignatureOf(m))| == m.fileSize
    ensures ChunkOf(w.source(SignatureOf(m)), m.chunkSize, 0) == w.source(SignatureOf(m))
    ensures HonestChunk(w, m.id, 0, w.source(SignatureOf(m)))
    ensures Encode(MetadataMsg(m)).Ok? && Decode(Encode(MetadataMsg(m)).value) == Ok(MetadataMsg(m))
    ensures Encode(DataOf(w, m)).Ok? && Decode(Encode(DataOf(w, m)).value) == Ok(DataOf(w, m))
    ensures Arrives(w, Encode(MetadataMsg(m)).value) && Arrives(w, Encode(DataOf(w, m)).value)
  {
    TotalNat(m);
    ChunkInside(m.fileSize, m.chunkSize, 1);
    ChunkInside(m.fileSize, m.chunkSize, 0);
    var payload := w.source(SignatureOf(m));
    assert payload[0..|payload|] == payload;
    assert ChunkOf(payload, m.chunkSize, 0) == payload;
    Widths();
    HonestEncodes(w, m);
    hide Encode, Decode, ChunkOf;
    assert Fits(0, 4) && w.sigOf(m.id).size == m.fileSize && w.sigOf(m.id).chunkSize == m.chunkSize;
    EncodesIfCarried(w, m.id, 0, payload);
  }

  // ---------------------------------------------------------------- its arrival

  ghost function ArrivalRun(w: World, m: Manifest, now: real): (events: seq<Event>)
    requires Encode(MetadataMsg(m)).Ok? && Encode(DataOf(w, m)).Ok?
    ensures |events| == 7
  {
    [StartSend(m, false), SendMetadata(m.id), SendChunk(m.id, 0), Deliver(Encode(MetadataMsg(m)).value, now), MainTask(now),
     Deliver(Encode(DataOf(w, m)).value, now), MainTask(now)]
  }

  /** The receiver knows neither the id nor the signature, and has nothing of the file. */
  ghost predicate Welcomes(w: World, r: Receiver, m: Manifest)
  {
    && r.todo == [] && r.pre == EMPTY && m.id !in r.transfers && SignatureOf(m) !in r.index
    && (m.id in r.parts ==> |r.parts[m.id]| == m.fileSize)
    && w.host.dest(m.name).Some? && Matching(w.host, r, w.host.dest(m.name).value, m).NoMatch?
  }

  function CacheUnmatched(r: Receiver, dest: bytes): (cache: map<bytes, CacheEntry>)
  {
    if dest in r.finals then r.cache else r.cache - {dest}
  }

  /** The file has arrived: its transfer is full and the last in the queue, and the rest is as before. */
  ghost predicate Arrived(w: World, r: Receiver, q: Receiver, m: Manifest)
  {
    && w.host.dest(m.name).Some? && m.id in q.transfers
    && var t, dest := q.transfers[m.id], w.host.dest(m.name).value;
       && t.manifest == m && t.part == m.id && t.dest == dest && t.received == AllOf(t) && t.finalized && !t.done
       && q.transfers == r.transfers[m.id := t] && q.index == r.index[SignatureOf(m) := m.id]
       && q.parts == r.parts[m.id := w.source(SignatureOf(m))]
       && q.todo == [] && q.pre == EMPTY && q.queue == r.queue + [Job(m.id, [])] && q.working == r.working
       && q.finals == r.finals && q.cache == CacheUnmatched(r, dest)
  }

  function Announced(r: Receiver, m: Manifest, dest: bytes): (q: Receiver)
  {
    r.(cache := CacheUnmatched(r, dest), todo := [Register(m)])
  }

  /** The receiver after the locked part of METADATA. */
  function Opened(r: Receiver, m: Manifest, dest: bytes, now: real): (q: Receiver)
  {
    r.(cache := CacheUnmatched(r, dest),
       transfers := r.transfers[m.id := Transfer(m, m.id, dest, {}, -1, false, false, now, 0.0, FRESH)],
       index := r.index[SignatureOf(m) := m.id],
       parts := if m.id in r.parts then r.parts else r.parts[m.id := Zeros(m.fileSize)],
       dirty := true)
  }

  lemma MetadataAnnounces(w: World, c: Config, r: Receiver, m: Manifest, raw: bytes, now: real)
    requires Welcomes(w, r, m) && !FileInfoQuery(m) && Decode(raw) == Ok(MetadataMsg(m))
    ensures Handle(w.host, c, r, now, raw) == Outcome(Announced(r, m, w.host.dest(m.name).value), [])
  {
    hide Decode, FileInfoQuery, Matching;
    assert [Register(m)] + r.todo == [Register(m)];
  }

  lemma RegisterOpens(w: World, c: Config, r: Receiver, m: Manifest, now: real)
    requires Welcomes(w, r, m) && m.totalChunks == 1
    ensures var dest := w.host.dest(m.name).value;
            RunTask(w.host, c, Announced(r, m, dest), now) == Outcome(Opened(r, m, dest, now), [])
  {
    hide Matching, AdvertiseState, Zeros;
    assert [Register(m)][1..] == [];
    assert Popped(EMPTY, m.id) == [] && Pop(EMPTY, m.id) == EMPTY;
  }

  /** The only chunk fills the tracker, and the main thread queues the transfer. */
  lemma ChunkQueues(w: World, c: Config, r: Receiver, m: Manifest, raw: bytes, now: real)
    requires Welcomes(w, r, m) && OneChunk(w, m) && Decode(raw) == Ok(DataOf(w, m))
    ensures var p := Opened(r, m, w.host.dest(m.name).value, now);
            var o := Handle(w.host, c, p, now, raw);
            && o.sent == [] && o.state.todo != [] && RunTask(w.host, c, o.state, now).sent == []
            && Arrived(w, r, RunTask(w.host, c, o.state, now).state, m)
  {
    var p := Opened(r, m, w.host.dest(m.name).value, now);
    var q := AcceptData(c, p, now, m.id, 0, w.source(SignatureOf(m)));
    OneChunkFacts(w, m);
    assert Handle(w.host, c, p, now, raw) == Outcome(q, []);
    OpenedFills(w, c, r, m, now);
    hide *;
    hide Arrived;
    TaskQueues(w, c, r, q, m, now);
  }

  /** The state after the chunk, up to the flag and the queue. */
  ghost predicate Filled(w: World, r: Receiver, q: Receiver, m: Manifest)
  {
    && w.host.dest(m.name).Some? && m.id in q.transfers
    && var t, dest := q.transfers[m.id], w.host.dest(m.name).value;
       && t.manifest == m && t.part == m.id && t.dest == dest && t.received == AllOf(t) && !t.finalized && !t.done
       && q.transfers == r.transfers[m.id := t] && q.index == r.index[SignatureOf(m) := m.id]
       && q.parts == r.parts[m.id := w.source(SignatureOf(m))]
       && q.todo == [Queue(m.id, [])] && q.pre == EMPTY && q.queue == r.queue && q.working == r.working
       && q.finals == r.finals && q.cache == CacheUnmatched(r, dest)
  }

  lemma OpenedFills(w: World, c: Config, r: Receiver, m: Manifest, now: real)
    requires Welcomes(w, r, m) && OneChunk(w, m)
    ensures var p := Opened(r, m, w.host.dest(m.name).value, now);
            Filled(w, r, AcceptData(c, p, now, m.id, 0, w.source(SignatureOf(m))), m)
  {
    var p, source := Opened(r, m, w.host.dest(m.name).value, now), w.source(SignatureOf(m));
    OneChunkFacts(w, m);
    assert m.id in p.parts && |p.parts[m.id]| == m.fileSize;
    hide Matching, OneChunk, AcceptData;
    ChunkFills(c, p, m, source, now);
    FillsIsFilled(w, r, AcceptData(c, p, now, m.id, 0, source), m, now);
  }

  lemma FillsIsFilled(w: World, r: Receiver, q: Receiver, m: Manifest, now: real)
    requires w.host.dest(m.name).Some? && m.totalChunks == 1 && r.pre == EMPTY && m.id in q.transfers
    requires var p := Opened(r, m, w.host.dest(m.name).value, now);
             && q.todo == [Queue(m.id, [])] && q.pre == p.pre && q.queue == p.queue && q.working == p.working
             && q.finals == p.finals && q.cache == p.cache && q.index == p.index
             && q.parts == p.parts[m.id := w.source(SignatureOf(m))]
             && q.transfers == p.transfers[m.id := q.transfers[m.id]]
             && var t := q.transfers[m.id];
                && t.manifest == m && t.part == m.id && t.dest == p.transfers[m.id].dest && t.received == {0}
                && !t.finalized && !t.done
    ensures Filled(w, r, q, m)
  {
    assert Interval(0, 1) == {0};
    hide Zeros, CacheUnmatched;
  }

  lemma TaskQueues(w: World, c: Config, r: Receiver, q: Receiver, m: Manifest, now: real)
    requires Filled(w, r, q, m)
    ensures q.todo != [] && RunTask(w.host, c, q, now).sent == []
    ensures Arrived(w, r, RunTask(w.host, c, q, now).state, m)
  {
    assert [Queue(m.id, [])][1..] == [];
    FullQueues(c, q.(todo := []), m.id, now);
    hide QueueFinalization;
  }

  lemma ChunkFills(c: Config, p: Receiver, m: Manifest, payload: bytes, now: real)
    requires m.id in p.transfers && m.totalChunks == 1 && p.todo == []
    requires p.transfers[m.id] == Transfer(m, m.id, p.transfers[m.id].dest, {}, -1, false, false, now, 0.0, FRESH)
    requires |payload| == m.fileSize && m.id in p.parts && |p.parts[m.id]| == m.fileSize
    ensures var q := AcceptData(c, p, now, m.id, 0, payload);
            && q.todo == [Queue(m.id, [])] && q.pre == p.pre && q.queue == p.queue && q.working == p.working
            && q.finals == p.finals && q.cache == p.cache && q.index == p.index
            && q.parts == p.parts[m.id := payload] && m.id in q.transfers
            && q.transfers == p.transfers[m.id := q.transfers[m.id]]
            && var t := q.transfers[m.id];
               && t.manifest == m && t.part == m.id && t.dest == p.transfers[m.id].dest && t.received == {0}
               && !t.finalized && !t.done
  {
    assert {} + {0} == {0};
    assert WriteAt(p.parts[m.id], 0, payload) == payload;
    assert [Queue(m.id, [])] + [] == [Queue(m.id, [])];
    hide WriteAt;
  }

  lemma FullQueues(c: Config, p: Receiver, id: bytes, now: real)
    requires id in p.transfers && !p.transfers[id].finalized
    ensures var q := QueueFinalization(c, p, now, id, []);
            && q.todo == p.todo && q.pre == p.pre && q.queue == p.queue + [Job(p.transfers[id].part, [])]
            && q.working == p.working && q.finals == p.finals && q.cache == p.cache && q.index == p.index
            && q.parts == p.parts && q.transfers == p.transfers[id := p.transfers[id].(finalized := true)]
  {
    hide JournalOf;
  }

  lemma Delivers(w: World, c: Config, s: Sys, raw: bytes, now: real, q: Receiver, sent: seq<Message>)
    requires raw in s.net && Arrives(w, raw) && s.receiver.todo == []
    requires Handle(w.host, c, s.receiver, now, raw) == Outcome(q, sent)
    ensures var t := Step(w, c, s, Deliver(raw, now));
            t.receiver == q && t.senders == s.senders && t.net == s.net + Datagrams(sent)
  {
    hide Handle, Datagrams, Seen, DeliverAnswers;
  }

  lemma Turns(w: World, c: Config, s: Sys, now: real)
    requires s.receiver.todo != []
    ensures var t, o := Step(w, c, s, MainTask(now)), RunTask(w.host, c, s.receiver, now);
            t.receiver == o.state && t.senders == s.senders && t.net == s.net + Datagrams(o.sent)
  {
    hide RunTask, Datagrams, Seen;
  }

  /** The sender's three events put the METADATA and the chunk on the network. */
  lemma Sends(w: World, c: Config, s: Sys, m: Manifest)
    requires OneChunk(w, m)
    ensures Encode(MetadataMsg(m)).Ok? && Encode(DataOf(w, m)).Ok?
    ensures var t := Step(w, c, Step(w, c, Step(w, c, s, StartSend(m, false)), SendMetadata(m.id)), SendChunk(m.id, 0));
            && t.receiver == s.receiver && s.net <= t.net
            && Encode(MetadataMsg(m)).value in t.net && Encode(DataOf(w, m)).value in t.net
  {
    OneChunkFacts(w, m);
    SingleDatagram(MetadataMsg(m));
    SingleDatagram(DataOf(w, m));
    hide Encode, Decode, Datagrams, ChunkOf, HonestChunk, Honest, FileInfoQuery;
    assert Honest(w, m);
  }

  lemma FreshWelcomes(w: World, s: Sys, m: Manifest)
    requires Init(w, s) && OneChunk(w, m) && w.host.dest(m.name).value !in s.receiver.finals
    ensures Welcomes(w, s.receiver, m)
  {
  }

  /** Nothing lost, a file of one chunk is received, flagged and queued, whatever else the receiver holds. */
  lemma ArrivalArrives(w: World, c: Config, s: Sys, m: Manifest, now: real)
    requires OneChunk(w, m) && Welcomes(w, s.receiver, m)
    ensures Encode(MetadataMsg(m)).Ok? && Encode(DataOf(w, m)).Ok?
    ensures var t := Final(w, c, s, ArrivalRun(w, m, now));
            Arrived(w, s.receiver, t.receiver, m) && s.net <= t.net && Encode(MetadataMsg(m)).value in t.net
  {
    OneChunkFacts(w, m);
    var r, dest := s.receiver, w.host.dest(m.name).value;
    var ask, chunk := Encode(MetadataMsg(m)).value, Encode(DataOf(w, m)).value;
    var events := ArrivalRun(w, m, now);
    assert !FileInfoQuery(m) && m.totalChunks == 1;
    Sends(w, c, s, m);
    ArrivalEvents(w, m, now);
    hide *;
    hide Arrived;
    Unrolled(w, c, s, events);
    assert Final(w, c, s, events) == Run(w, c, s, events, 7);
    var s3, s4, s5, s6 := Run(w, c, s, events, 3), Run(w, c, s, events, 4), Run(w, c, s, events, 5), Run(w, c, s, events, 6);
    MetadataAnnounces(w, c, r, m, ask, now);
    assert r.todo == [] && Announced(r, m, dest).todo != [] && Opened(r, m, dest, now).todo == [];
    Delivers(w, c, s3, ask, now, Announced(r, m, dest), []);
    Turns(w, c, s4, now);
    RegisterOpens(w, c, r, m, now);
    ChunkQueues(w, c, r, m, chunk, now);
    var o := Handle(w.host, c, s5.receiver, now, chunk);
    Delivers(w, c, s5, chunk, now, o.state, []);
    Turns(w, c, s6, now);
  }

  lemma ArrivalEvents(w: World, m: Manifest, now: real)
    requires Encode(MetadataMsg(m)).Ok? && Encode(DataOf(w, m)).Ok?
    ensures var e := ArrivalRun(w, m, now);
            && e[0] == StartSend(m, false) && e[1] == SendMetadata(m.id) && e[2] == SendChunk(m.id, 0)
            && e[3] == Deliver(Encode(MetadataMsg(m)).value, now) && e[4] == MainTask(now)
            && e[5] == Deliver(Encode(DataOf(w, m)).value, now) && e[6] == MainTask(now)
  {
    hide Encode;
  }

  lemma Begins(w: World, c: Config, s: Sys, id: bytes, fileTime: int)
    requires Enabled(w, s, BeginFinalize(id, fileTime))
    ensures var t := Step(w, c, s, BeginFinalize(id, fileTime));
            t.receiver == FinalizeBegin(w.host, c, s.receiver, id, fileTime) && t.senders == s.senders && t.net == s.net
  {
    assert Datagrams([]) == {};
    hide FinalizeBegin, Datagrams, Seen;
  }

  lemma Ends(w: World, c: Config, s: Sys, now: real)
    requires s.receiver.working.Some?
    ensures var t := Step(w, c, s, EndFinalize(now));
            && t.receiver == FinalizeEnd(c, s.receiver, now).state && t.senders == s.senders
            && t.net == s.net + Datagrams(FinalizeEnd(c, s.receiver, now).sent)
  {
    hide FinalizeEnd, Datagrams, Seen;
  }

  lemma FinalIs(w: World, c: Config, s: Sys, events: seq<Event>)
    ensures Final(w, c, s, events) == Run(w, c, s, events, |events|)
  {
  }

  lemma BeginEnabled(w: World, s: Sys, id: bytes, fileTime: int)
    requires var r := s.receiver;
             && r.working.None? && r.queue != [] && id in r.transfers
             && r.transfers[id].part == r.queue[0].part
    ensures Enabled(w, s, BeginFinalize(id, fileTime))
  {
  }
}
