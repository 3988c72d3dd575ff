/** The repair rounds as events of the whole system: what a sender, the network and the receiver do in them, one event
    after the other, up to the published file and the sender's verdict. */
module RepairRuns {
  import opened Bytes
  import opened Ranges
  import opened Frames
  import opened Repair
  import opened PreMetadata
  import opened Pacing
  import opened ReceiverModel
  import opened Safety
  import opened Invariant
  import opened InvariantSteps
  import opened Shapes
  import opened System
  import opened Theorems
  import opened Runs
  import opened Delivery
  import opened RepairDelivery
  import opened RepairRounds

  // ---------------------------------------------------------------- states on the way

  /** A sender of the transfer is at work. */
  ghost predicate Sending(w: World, s: Sys, id: bytes)
  {
    id in s.senders && !s.senders[id].phase.Finished? && Honest(w, s.senders[id].manifest) && s.senders[id].manifest.id == id
  }

  /** The prompt is the timer, or METADATA as the sender sends it, in a datagram that arrives. */
  ghost predicate Prompting(w: World, s: Sys, p: Prompt, id: bytes)
    requires id in s.senders
  {
    p.Announcement? ==> p.manifest == s.senders[id].manifest && Announceable(w, p.manifest)
  }

  /** The run has come to `t`: the receiver is `q`, the senders are as they were, and nothing is off the network. */
  ghost predicate ComesTo(s: Sys, t: Sys, q: Receiver)
  {
    t.receiver == q && t.senders == s.senders && s.net <= t.net
  }

  lemma Joined(w: World, c: Config, s: Sys, a: seq<Event>, b: seq<Event>, p: Receiver, q: Receiver)
    requires ComesTo(s, Final(w, c, s, a), p) && ComesTo(Final(w, c, s, a), Final(w, c, Final(w, c, s, a), b), q)
    ensures ComesTo(s, Final(w, c, s, a + b), q)
  {
    FinalAppend(w, c, s, a, b);
    hide Final;
  }

  // ---------------------------------------------------------------- the prompt

  lemma PromptRuns(w: World, c: Config, p: Prompt, s: Sys, now: real, id: bytes) returns (events: seq<Event>)
    requires s.receiver.todo == [] && Sending(w, s, id) && Prompting(w, s, p, id)
    ensures var t, o := Final(w, c, s, events), Prompted(w.host, c, p, s.receiver, now, id);
            ComesTo(s, t, o.state) && Datagrams(o.sent) <= t.net
  {
    if p.Timer? {
      events := [RepairTimer(id, now)];
      Unrolled(w, c, s, events);
      hide RepairTick, Datagrams, Seen, Run;
      FinalIs(w, c, s, events);
    } else {
      events := AnnouncementRuns(w, c, p, s, now, id);
    }
  }

  lemma AnnouncementRuns(w: World, c: Config, p: Prompt, s: Sys, now: real, id: bytes) returns (events: seq<Event>)
    requires s.receiver.todo == [] && Sending(w, s, id) && Prompting(w, s, p, id) && p.Announcement?
    ensures var t, o := Final(w, c, s, events), Prompted(w.host, c, p, s.receiver, now, id);
            ComesTo(s, t, o.state) && Datagrams(o.sent) <= t.net
  {
    var m, r := p.manifest, s.receiver;
    var raw := Encode(MetadataMsg(m)).value;
    events := [SendMetadata(id), Deliver(raw, now), MainTask(now)];
    HonestEncodes(w, m);
    SingleDatagram(MetadataMsg(m));
    Unrolled(w, c, s, events);
    FinalIs(w, c, s, events);
    hide Honest, Encode, Decode, Datagrams, Run, HandleMetadata, RunTask;
    var s1, s2 := Run(w, c, s, events, 1), Run(w, c, s, events, 2);
    var o := HandleMetadata(w.host, c, r, m);
    Posted(w, c, s, id);
    assert s1 == Step(w, c, s, events[0]) && s2 == Step(w, c, s1, events[1]);
    assert Run(w, c, s, events, 3) == Step(w, c, s2, events[2]);
    HandledMetadata(w, c, r, now, raw, m);
    hide Step, Handle;
    Delivers(w, c, s1, raw, now, o.state, o.sent);
    if o.state.todo == [] {
      NoTurn(w, c, s2, now);
    } else {
      Runs.Turns(w, c, s2, now);
      SentTogether(o.sent, RunTask(w.host, c, o.state, now).sent);
    }
  }

  lemma HandledMetadata(w: World, c: Config, r: Receiver, now: real, raw: bytes, m: Manifest)
    requires Decode(raw) == Ok(MetadataMsg(m))
    ensures Handle(w.host, c, r, now, raw) == HandleMetadata(w.host, c, r, m)
  {
    hide Decode, HandleMetadata;
  }

  lemma Posted(w: World, c: Config, s: Sys, id: bytes)
    requires Sending(w, s, id)
    ensures Step(w, c, s, SendMetadata(id)) == Post(s, MetadataMsg(s.senders[id].manifest))
  {
    hide Post, Honest;
  }

  /** The main thread has nothing to do. */
  lemma NoTurn(w: World, c: Config, s: Sys, now: real)
    requires s.receiver.todo == []
    ensures Step(w, c, s, MainTask(now)) == s
  {
  }

  lemma SentTogether(a: seq<Message>, b: seq<Message>)
    ensures Datagrams(a + b) == Datagrams(a) + Datagrams(b)
  {
    hide Encode;
    var ab := a + b;
    forall x | x in Datagrams(a) + Datagrams(b) ensures x in Datagrams(ab) {
      if x in Datagrams(a) {
        var k :| 0 <= k < |a| && Encode(a[k]).Ok? && Encode(a[k]).value == x;
        assert ab[k] == a[k];
      } else {
        var k :| 0 <= k < |b| && Encode(b[k]).Ok? && Encode(b[k]).value == x;
        assert ab[|a| + k] == b[k];
      }
    }
  }

  // ---------------------------------------------------------------- a chunk on its way

  /** A call is what the datagram's turn and the main thread's next one do. */
  lemma CallTurns(h: Host, c: Config, r: Receiver, now: real, id: bytes, index: int, payload: bytes)
    requires r.todo == []
    ensures var p, q := AcceptData(c, r, now, id, index, payload), AcceptCall(c, r, now, id, index, payload);
            && q.todo == []
            && if p.todo == [] then q == p else RunTask(h, c, p, now) == Outcome(q, [])
  {
    var p := AcceptData(c, r, now, id, index, payload);
    var more := AcceptTodo(c, r, [], now, id, index, payload);
    assert r.(todo := []) == r && more + [] == more;
    hide AcceptData, QueueFinalization, RegisterTransfer, AdvertiseState;
    assert [Queue(id, [])][1..] == [];
    QueueTodo(c, p, [], now, id);
    assert p.todo != [] ==> p.todo == [Queue(id, [])];
  }

  /** The sender's chunk as `_read_chunk` reads it. */
  lemma ChunkPosted(w: World, c: Config, s: Sys, id: bytes, x: int)
    requires Sending(w, s, id) && ChunksOf(w, id, [x])
    ensures Step(w, c, s, SendChunk(id, x)) == Post(s, DataMsg(Chunk(id, x, PayloadOf(w, id, x))))
  {
    var m := s.senders[id].manifest;
    TotalNat(m);
    assert [x][0] == x;
    hide Post, ChunkOf;
  }

  /** A chunk that fits arrives as it was sent. */
  lemma ChunkArrives(w: World, id: bytes, x: int)
    requires ChunksOf(w, id, [x]) && Fitting(w, id, x)
    ensures var m := DataMsg(Chunk(id, x, PayloadOf(w, id, x)));
            Encode(m).Ok? && Arrives(w, Encode(m).value) && Decode(Encode(m).value) == Ok(m)
  {
    assert [x][0] == x;
    var payload := PayloadOf(w, id, x);
    assert HonestChunk(w, id, x, payload);
    Widths();
    PassageIs(w, id, [x], 0);
    EncodesIfCarried(w, id, x, payload);
    hide Encode, Decode, HonestChunk, PayloadOf, Arrives, Carry;
  }

  lemma ChunkRuns(w: World, c: Config, s: Sys, now: real, id: bytes, x: int) returns (events: seq<Event>)
    requires s.receiver.todo == [] && Sending(w, s, id) && ChunksOf(w, id, [x]) && Fitting(w, id, x)
    ensures var q := AcceptCall(c, s.receiver, now, id, x, PayloadOf(w, id, x));
            ComesTo(s, Final(w, c, s, events), q) && q.todo == []
  {
    var r, payload := s.receiver, PayloadOf(w, id, x);
    var m := DataMsg(Chunk(id, x, payload));
    ChunkArrives(w, id, x);
    var raw := Encode(m).value;
    events := [SendChunk(id, x), Deliver(raw, now), MainTask(now)];
    SingleDatagram(m);
    Unrolled(w, c, s, events);
    FinalIs(w, c, s, events);
    ChunkPosted(w, c, s, id, x);
    CallTurns(w.host, c, r, now, id, x, payload);
    HandledData(w, c, r, now, raw, Chunk(id, x, payload));
    hide Sending, Encode, Decode, Datagrams, Run, AcceptData, AcceptCall, RunTask, Step, Handle, PayloadOf, ChunksOf, Fitting;
    var s1, s2 := Run(w, c, s, events, 1), Run(w, c, s, events, 2);
    assert s1 == Step(w, c, s, events[0]) && s2 == Step(w, c, s1, events[1]);
    assert Run(w, c, s, events, 3) == Step(w, c, s2, events[2]);
    var p := AcceptData(c, r, now, id, x, payload);
    Delivers(w, c, s1, raw, now, p, []);
    if p.todo == [] {
      NoTurn(w, c, s2, now);
    } else {
      Runs.Turns(w, c, s2, now);
    }
  }

  lemma HandledData(w: World, c: Config, r: Receiver, now: real, raw: bytes, d: Chunk)
    requires Decode(raw) == Ok(DataMsg(d))
    ensures Handle(w.host, c, r, now, raw) == Outcome(AcceptData(c, r, now, d.id, d.index, d.payload), [])
  {
    hide Decode, AcceptData;
  }

  /** A list of chunks that fit arrives chunk by chunk. */
  lemma {:induction false} ChunksRun(w: World, c: Config, s: Sys, now: real, id: bytes, ys: seq<int>, n: nat)
    returns (events: seq<Event>)
    requires s.receiver.todo == [] && Sending(w, s, id) && ChunksOf(w, id, ys) && AllFitting(w, id, ys) && n <= |ys|
    ensures var q := AcceptCalls(c, s.receiver, Always(now), id, Payloads(w, id, ys), n);
            ComesTo(s, Final(w, c, s, events), q) && q.todo == []
  {
    hide Sending, Final, AcceptCall, Fitting, PayloadOf;
    events := [];
    if n == 0 {
      FinalIs(w, c, s, events);
      Unrolled(w, c, s, events);
    } else {
      events := ChunksRun(w, c, s, now, id, ys, n - 1);
      var d := Payloads(w, id, ys);
      var p := AcceptCalls(c, s.receiver, Always(now), id, d, n - 1);
      var t := Final(w, c, s, events);
      assert d[n - 1].key == ys[n - 1] && d[n - 1].value == PayloadOf(w, id, ys[n - 1]);
      OneOfChunks(w, id, ys, n - 1);
      SendingStays(w, s, t, id);
      var more := ChunkRuns(w, c, t, now, id, ys[n - 1]);
      Joined(w, c, s, events, more, p, AcceptCalls(c, s.receiver, Always(now), id, d, n));
      events := events + more;
    }
  }

  lemma OneOfChunks(w: World, id: bytes, ys: seq<int>, k: nat)
    requires ChunksOf(w, id, ys) && k < |ys|
    ensures ChunksOf(w, id, [ys[k]])
  {
  }

  lemma SendingStays(w: World, s: Sys, t: Sys, id: bytes)
    requires Sending(w, s, id) && t.senders == s.senders
    ensures Sending(w, t, id)
  {
  }

  // ---------------------------------------------------------------- a round

  /** A request for chunks leaves the sender where it is. */
  lemma RequestHeard(w: World, c: Config, s: Sys, id: bytes, raw: bytes, l: seq<Range>)
    requires Sending(w, s, id) && raw in s.net && Arrives(w, raw) && Decode(raw) == Ok(StatusMsg(RepairStatus(id, l)))
    ensures ComesTo(s, Final(w, c, s, [SenderReceive(id, raw)]), s.receiver)
  {
    var events := [SenderReceive(id, raw)];
    Unrolled(w, c, s, events);
    FinalIs(w, c, s, events);
    hide Decode, Run, Honest;
    assert OnDatagram(s.senders[id], raw) == s.senders[id];
    assert s.senders[id := s.senders[id]] == s.senders;
    assert Run(w, c, s, events, 1) == Step(w, c, s, events[0]);
  }

  /** What comes of a list of chunks are chunks of the list that fit. */
  lemma ComingFits(w: World, id: bytes, xs: seq<int>)
    requires ChunksOf(w, id, xs)
    ensures var ys := Coming(w, id, xs, |xs|); ChunksOf(w, id, ys) && AllFitting(w, id, ys)
  {
    var ys := Coming(w, id, xs, |xs|);
    hide Coming, Fitting, Goes;
    forall j | 0 <= j < |ys| ensures ys[j] in xs && Fitting(w, id, ys[j]) {
      ComingMember(w, id, xs, |xs|, ys[j]);
    }
  }

  lemma RequestThere(w: World, c: Config, p: Prompt, r: Receiver, id: bytes, o: Outcome)
    requires Repairable(w, c, p, r, id) && id in r.transfers
    requires o.sent == [StatusMsg(RepairStatus(id, AskedRanges(c, p, r.transfers[id])))]
    ensures var raw := Encode(o.sent[0]);
            && raw.Ok? && Datagrams(o.sent) == {raw.value} && Decode(raw.value) == Ok(o.sent[0])
            && (Arrives(w, raw.value) <==> RequestArrives(w, c, p, r.transfers[id]))
  {
    RequestCrosses(w, c, p, r, id);
    hide Repairable, AskedRanges, Encode, Decode, Datagrams, Arrives, RequestArrives;
    SingleDatagram(o.sent[0]);
  }

  /** The servicing of a request that arrives, as events. */
  lemma ServingRuns(w: World, c: Config, s: Sys, now: real, id: bytes, raw: bytes, l: seq<Range>)
    returns (events: seq<Event>)
    requires s.receiver.todo == [] && Sending(w, s, id) && ChunksOf(w, id, Expand(l))
    requires raw in s.net && Arrives(w, raw) && Decode(raw) == Ok(StatusMsg(RepairStatus(id, l)))
    ensures var xs := Expand(l);
            var d := Across(w, id, xs, |xs|);
            ComesTo(s, Final(w, c, s, events), AcceptCalls(c, s.receiver, Always(now), id, d, |d|))
  {
    RequestHeard(w, c, s, id, raw, l);
    var xs, heard := Expand(l), [SenderReceive(id, raw)];
    var t, ys := Final(w, c, s, heard), Coming(w, id, xs, |xs|);
    AcrossIs(w, id, xs, |xs|);
    ComingFits(w, id, xs);
    SendingStays(w, s, t, id);
    hide Sending, Final, ChunksOf, Across, Coming, AcceptCalls, AllFitting, Arrives, Decode;
    var more := ChunksRun(w, c, t, now, id, ys, |ys|);
    Joined(w, c, s, heard, more, s.receiver, AcceptCalls(c, s.receiver, Always(now), id, Payloads(w, id, ys), |ys|));
    events := heard + more;
  }

  /** A round is a run: the prompt's events, the sender's reading of the request, and three events for each chunk. */
  lemma RoundRuns(w: World, c: Config, p: Prompt, s: Sys, now: real, id: bytes) returns (events: seq<Event>)
    requires Repairable(w, c, p, s.receiver, id) && Sending(w, s, id) && Prompting(w, s, p, id)
    ensures ComesTo(s, Final(w, c, s, events), RepairRound(w, c, p, s.receiver, now, id))
  {
    var r := s.receiver;
    RepairableHas(w, c, p, r, id);
    TurnIs(w, c, p, r, now, id);
    AskedFacts(w, c, p, r, id);
    var o := Prompted(w.host, c, p, r, now, id);
    hide Repairable, Prompted, Served, Asks, AskedRanges, Expand, Across, AcceptCalls, ChunksOf, Increasing, Final,
         Ready, Right, Sendable, AllOf, SameAnswer, RequestArrives, Arrives, Decode, Encode, Sending, Prompting, Datagrams;
    events := PromptRuns(w, c, p, s, now, id);
    var t := Final(w, c, s, events);
    if Asks(w, c, p, r, now, id) {
      RequestServed(w, c, p, r, now, id, o);
      RequestThere(w, c, p, r, id, o);
      if RequestArrives(w, c, p, r.transfers[id]) {
        SendingStays(w, s, t, id);
        var more := ServingRuns(w, c, t, now, id, Encode(o.sent[0]).value, AskedRanges(c, p, r.transfers[id]));
        Joined(w, c, s, events, more, o.state, RepairRound(w, c, p, r, now, id));
        events := events + more;
      }
    } else {
      NothingServed(w, c, o, now, id);
    }
  }

  /** So are many rounds. */
  lemma {:induction false} RoundsRun(w: World, c: Config, p: Prompt, s: Sys, now: Times, id: bytes, k: nat)
    returns (events: seq<Event>)
    requires Repairable(w, c, p, s.receiver, id) && Sending(w, s, id) && Prompting(w, s, p, id)
    requires Spaced(c, now) && id in s.receiver.transfers && Settled(s.receiver.transfers[id], now(0))
    ensures ComesTo(s, Final(w, c, s, events), AfterRounds(w, c, p, s.receiver, now, id, k))
  {
    hide Repairable, Sending, Prompting, RepairRound, Spaced, Settled, Final;
    events := [];
    if k == 0 {
      FinalIs(w, c, s, events);
      Unrolled(w, c, s, events);
    } else {
      events := RoundsRun(w, c, p, s, now, id, k - 1);
      var t, r := Final(w, c, s, events), s.receiver;
      RoundsKeep(w, c, p, r, now, id, k - 1);
      SendingStays(w, s, t, id);
      PromptingStays(w, s, t, p, id);
      var more := RoundRuns(w, c, p, t, now(k), id);
      Joined(w, c, s, events, more, AfterRounds(w, c, p, r, now, id, k - 1), AfterRounds(w, c, p, r, now, id, k));
      events := events + more;
    }
  }

  lemma PromptingStays(w: World, s: Sys, t: Sys, p: Prompt, id: bytes)
    requires id in s.senders && Prompting(w, s, p, id) && t.senders == s.senders
    ensures Prompting(w, t, p, id)
  {
  }

  // ---------------------------------------------------------------- the verdict

  /** COMPLETE ends the sender's call with success, in whatever phase it is. */
  lemma CompleteHeard(w: World, c: Config, s: Sys, id: bytes, raw: bytes) returns (events: seq<Event>)
    requires Sending(w, s, id) && raw in s.net && Arrives(w, raw) && Decode(raw) == Ok(CompleteStatus(id))
    ensures var t := Final(w, c, s, events);
            t.receiver == s.receiver && id in t.senders && t.senders[id].phase == Finished(true)
  {
    events := [SenderReceive(id, raw), SenderEndStream(id)];
    Unrolled(w, c, s, events);
    FinalIs(w, c, s, events);
    hide Decode, Run, Honest;
    var t := Run(w, c, s, events, 1);
    assert t == Step(w, c, s, events[0]) && Run(w, c, s, events, 2) == Step(w, c, t, events[1]);
    var e := OnDatagram(s.senders[id], raw);
    assert t.senders[id] == e && t.receiver == s.receiver;
  }

  /** The next finalization publishes the file, and the sender hears of it. */
  lemma EndingRuns(w: World, c: Config, s: Sys, id: bytes, t: Transfer, fileTime: int, end: real)
    returns (events: seq<Event>)
    requires PublishesNext(w, c, s.receiver, t, id, fileTime, end) && s.receiver.working == None && Sending(w, s, id)
    requires HEADER_SIZE + STATUS_FIXED <= Largest(w)
    ensures var u := Final(w, c, s, events);
            && t.dest in u.receiver.finals && u.receiver.finals[t.dest].content == w.source(Sig(t))
            && id in u.senders && u.senders[id].phase == Finished(true)
  {
    var first := [BeginFinalize(id, fileTime), EndFinalize(end)];
    var begun := FinalizeBegin(w.host, c, s.receiver, id, fileTime);
    Unrolled(w, c, s, first);
    FinalIs(w, c, s, first);
    BeginEnabled(w, s, id, fileTime);
    EndingShape(c, begun, end);
    CompleteCrosses(w, s, id);
    hide FinalizeBegin, FinalizeEnd, Run, Step, Final, Encode, Decode, Datagrams, Arrives, MarkDone, Sending, Enabled;
    var s1, u := Run(w, c, s, first, 1), Final(w, c, s, first);
    assert s1 == Step(w, c, s, first[0]) && u == Step(w, c, s1, first[1]);
    Begins(w, c, s, id, fileTime);
    Ends(w, c, s1, end);
    SingleDatagram(CompleteStatus(id));
    SendingStays(w, s, u, id);
    var more := CompleteHeard(w, c, u, id, Encode(CompleteStatus(id)).value);
    FinalAppend(w, c, s, first, more);
    events := first + more;
  }

  lemma CompleteCrosses(w: World, s: Sys, id: bytes)
    requires Sending(w, s, id) && HEADER_SIZE + STATUS_FIXED <= Largest(w)
    ensures var raw := Encode(CompleteStatus(id));
            raw.Ok? && Arrives(w, raw.value) && Decode(raw.value) == Ok(CompleteStatus(id))
  {
    assert |id| == ID_SIZE;
    assert Elems([]) == {};
    StatusSendable(id, COMPLETE, [], 0);
    hide Encode, Decode, Honest;
  }

  // ---------------------------------------------------------------- from any reachable state

  /** The receiver is at rest, and misses something of the transfer. */
  predicate Resting(r: Receiver, id: bytes)
  {
    && id in r.transfers && !r.transfers[id].finalized && r.transfers[id].received != AllOf(r.transfers[id])
    && r.todo == [] && r.queue == [] && r.working == None
  }

  lemma SoundReady(w: World, h: History, r: Receiver, id: bytes)
    requires Inv(w, h, r) && id in r.transfers && !r.transfers[id].finalized
    ensures Ready(w, r, id) && Right(w, r, id) && w.sigOf(id) == Sig(r.transfers[id])
  {
    var t := r.transfers[id];
    InvAt(w, h, r, id);
    assert PartsOk(w, r.parts);
    hide IndexOk, TransfersOk, JournalOk, QueueOk, WorkingOk, FilesOk, PreOk, TodoOk, Holds, Published;
  }

  /** In a reachable state, a transfer that is not finalized is one that repair can be about. */
  lemma SoundRepairable(w: World, c: Config, p: Prompt, s: Sys, id: bytes)
    requires SysInv(w, s) && Resting(s.receiver, id) && 1 <= c.repair.maxChunks <= MAX_RANGES
    requires id in s.senders && !s.senders[id].phase.Finished? && Prompting(w, s, p, id)
    ensures Repairable(w, c, p, s.receiver, id) && Sending(w, s, id)
  {
    hide SysInv, Inv, Ready, Right, Announceable, AllOf, Sending, PromptOk, Honest;
    SysReceiver(w, s);
    SoundSending(w, s, id);
    SoundReady(w, s.history, s.receiver, id);
    ReadyTotal(w, s.receiver, id);
    SoundPrompt(w, s, p, s.receiver.transfers[id], id);
  }

  lemma SoundSending(w: World, s: Sys, id: bytes)
    requires SysInv(w, s) && id in s.senders && !s.senders[id].phase.Finished?
    ensures Sending(w, s, id)
  {
    hide SysInv, Honest, Published;
    OneSender(w, s, id);
  }

  lemma SoundPrompt(w: World, s: Sys, p: Prompt, t: Transfer, id: bytes)
    requires Sending(w, s, id) && Prompting(w, s, p, id) && w.sigOf(id) == Sig(t)
    ensures PromptOk(w, p, t, id)
  {
    hide ManifestOk, Announceable;
  }

  lemma ReadyTotal(w: World, r: Receiver, id: bytes)
    requires Ready(w, r, id)
    ensures |id| == ID_SIZE && 0 <= r.transfers[id].manifest.totalChunks < 0x1_0000_0000
  {
    TotalNat(r.transfers[id].manifest);
    Widths();
    hide AllOf;
  }

  /** The first request is no shorter than a STATUS without ranges. */
  lemma FirstArrives(w: World, c: Config, p: Prompt, t: Transfer, id: bytes)
    requires RequestsArrive(w, c, p, t, id) && t.received != AllOf(t)
    ensures HEADER_SIZE + STATUS_FIXED <= Largest(w)
  {
    assert Expected(c, p, t, id, 0) == t;
    assert GoesOn(w, c, p, Expected(c, p, t, id, 0));
    hide AskedRanges;
  }

  lemma StateCompletes(w: World, c: Config, p: Prompt, s: Sys, now: Times, id: bytes, fileTime: int, end: real)
    returns (more: seq<Event>)
    requires Repairable(w, c, p, s.receiver, id) && Resting(s.receiver, id) && Sending(w, s, id) && Prompting(w, s, p, id)
    requires Open(w, c, p, s.receiver, id) && MissingFit(w, s.receiver, id)
    requires RequestsArrive(w, c, p, s.receiver.transfers[id], id)
    requires Spaced(c, now) && Settled(s.receiver.transfers[id], now(0))
    requires var t := s.receiver.transfers[id]; w.host.sha(w.source(Sig(t))) == t.manifest.sha
    ensures var t, u := s.receiver.transfers[id], Final(w, c, s, more);
            && t.dest in u.receiver.finals && u.receiver.finals[t.dest].content == w.source(Sig(t))
            && id in u.senders && u.senders[id].phase == Finished(true)
  {
    var r := s.receiver;
    var t := r.transfers[id];
    var k := |AllOf(t) - t.received|;
    FirstArrives(w, c, p, t, id);
    hide Repairable, Open, MissingFit, RequestsArrive, Spaced, Settled, Sending, Prompting, AfterRounds, Final, AllOf,
         PublishesNext, SameAnswer, QueuedWhenFull, FlagIsFull;
    more := RoundsRun(w, c, p, s, now, id, k);
    var u := Final(w, c, s, more);
    RepairPublishes(w, c, p, r, now, id, k, fileTime, end);
    RoundsKeep(w, c, p, r, now, id, k);
    SendingStays(w, s, u, id);
    var last := EndingRuns(w, c, u, id, t, fileTime, end);
    FinalAppend(w, c, s, more, last);
    more := more + last;
  }

  /** From any reachable state with a sender of the transfer at work and the receiver at rest: if the receiver may ask, and
      the missing chunks and the requests arrive, the run goes on to a state in which the source is at its destination, byte
      for byte, and `send_file` has returned with success. */
  lemma RepairCompletes(w: World, c: Config, p: Prompt, start: Sys, before: seq<Event>, now: Times, id: bytes, fileTime: int,
                        end: real) returns (more: seq<Event>)
    requires Init(w, start) && 1 <= c.repair.maxChunks <= MAX_RANGES
    requires var s := Final(w, c, start, before);
             && Resting(s.receiver, id) && id in s.senders && !s.senders[id].phase.Finished? && Prompting(w, s, p, id)
             && Open(w, c, p, s.receiver, id) && MissingFit(w, s.receiver, id)
             && RequestsArrive(w, c, p, s.receiver.transfers[id], id)
             && Spaced(c, now) && Settled(s.receiver.transfers[id], now(0))
    requires w.host.sha(w.source(w.sigOf(id))) == w.sigOf(id).sha
    ensures var t, u := Final(w, c, start, before).receiver.transfers[id], Final(w, c, start, before + more);
            && HadFile(w, u.receiver, t.dest, t.manifest.sha) && u.receiver.finals[t.dest].content == w.source(w.sigOf(id))
            && id in u.senders && u.senders[id].phase == Finished(true)
  {
    var s := Final(w, c, start, before);
    RunOk(w, c, start, before, |before|);
    FinalIs(w, c, start, before);
    SoundRepairable(w, c, p, s, id);
    SysReceiver(w, s);
    SoundReady(w, s.history, s.receiver, id);
    hide *;
    more := StateCompletes(w, c, p, s, now, id, fileTime, end);
    FinalAppend(w, c, start, before, more);
  }
}
