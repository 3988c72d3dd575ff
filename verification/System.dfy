/** Senders, the network and the receiver together, and what holds in every state of every run.

    The network is the set of all datagrams ever sent, as octets.  A delivery takes any of them that arrives whole, at any
    time, any number of times, so a run covers loss, duplication and reordering.  A datagram that is too long for the
    network is lost; one that is too long for a read is cut, and `CutIsNothing` shows that this comes to the same.  A run
    is a sequence of events; an event that is not possible changes nothing. */
module System {
  import opened Bytes
  import opened Ranges
  import opened Frames
  import opened ReceiverModel
  import opened PreMetadata
  import opened Safety
  import opened Invariant
  import opened InvariantSteps

  // ---------------------------------------------------------------- senders

  /** Where a `send_file` call with feedback stands: streaming (with the receive pump of the parallel repairs running or
      stopped, and whether COMPLETE was seen), waiting in the loop after the stream, or returned. */
  datatype Phase = Streaming(pumping: bool, signal: bool) | Waiting | Finished(completed: bool)

  datatype Endpoint = Endpoint(manifest: Manifest, phase: Phase)

  /** What a status for this transfer does.  The pump stops at COMPLETE and at HASH_MISMATCH; the drains outside the pump
      only react to COMPLETE; the wait loop ends at either. */
  function OnStatus(p: Phase, state: TransferState): (q: Phase)
  {
    match p
    case Streaming(pumping, signal) =>
      if state.COMPLETE? then Streaming(false, true)
      else if pumping && state.HASH_MISMATCH? then Streaming(false, signal) else p
    case Waiting =>
      if state.COMPLETE? then Finished(true) else if state.HASH_MISMATCH? then Finished(false) else p
    case Finished(_) => p
  }

  function OnDatagram(e: Endpoint, raw: bytes): (f: Endpoint)
  {
    match Decode(raw)
    case Ok(StatusMsg(s)) =>
      if s.kind.TRANSFER? && s.id == e.manifest.id then e.(phase := OnStatus(e.phase, s.state)) else e
    case _ => e
  }

  /** The stream ends: an empty file is done at once, a COMPLETE seen so far is the result, otherwise the wait loop
      begins. */
  function EndStream(e: Endpoint): (q: Phase)
  {
    match e.phase
    case Streaming(_, signal) => if e.manifest.totalChunks == 0 || signal then Finished(true) else Waiting
    case _ => e.phase
  }

  /** Only a verdict about its own transfer moves a sender, and only while its call goes on. */
  lemma OnlyVerdictsMove(e: Endpoint, raw: bytes)
    requires OnDatagram(e, raw) != e
    ensures Decode(raw).Ok? && Decode(raw).value.StatusMsg? && !e.phase.Finished?
    ensures var s := Decode(raw).value.status;
            s.kind.TRANSFER? && s.id == e.manifest.id && (s.state.COMPLETE? || s.state.HASH_MISMATCH?)
    ensures OnDatagram(e, raw).manifest == e.manifest
  {
    hide Decode;
  }

  // ---------------------------------------------------------------- the system

  datatype Sys = Sys(receiver: Receiver, senders: map<bytes, Endpoint>, net: set<bytes>, history: History)

  datatype Event =
    | StartSend(manifest: Manifest, pumping: bool)
    | SendMetadata(id: bytes)
    | SendChunk(id: bytes, index: int)
    | SendBeacon(id: bytes, peerAge: int)
    | SenderReceive(id: bytes, raw: bytes)
    | SenderEndStream(id: bytes)
    | SenderGiveUp(id: bytes)
    | Deliver(raw: bytes, now: real)
    | MainTask(now: real)
    | RepairTimer(id: bytes, now: real)
    | StaleTimer(id: bytes, now: real)
    | FlushTimer(now: real)
    | ExpireTimer(now: real)
    | BeginFinalize(id: bytes, fileTime: int)
    | EndFinalize(now: real)
    | CrashRestart(now: real)

  /** The datagrams of a list of messages; a message that cannot be encoded is not sent. */
  function Datagrams(ms: seq<Message>): (d: set<bytes>)
  {
    set k | 0 <= k < |ms| && Encode(ms[k]).Ok? :: Encode(ms[k]).value
  }

  /** The (path, hash) pairs of the final files that exist now. */
  ghost function Observed(w: World, r: Receiver): (s: set<(bytes, bytes)>)
  {
    set p | p in r.finals :: (p, w.host.sha(r.finals[p].content))
  }

  ghost function Seen(w: World, h: History, r: Receiver, answers: set<bytes>): (k: History)
  {
    History(h.seen + Observed(w, r), h.byTime + answers)
  }

  ghost function AfterReceiver(w: World, s: Sys, o: Outcome, answers: set<bytes>): (t: Sys)
  {
    Sys(o.state, s.senders, s.net + Datagrams(o.sent), Seen(w, s.history, o.state, answers))
  }

  ghost function Post(s: Sys, m: Message): (t: Sys)
  {
    s.(net := s.net + Datagrams([m]))
  }

  /** The ids that a datagram gets answered by size and time alone, for a file with another hash. */
  ghost function DeliverAnswers(w: World, r: Receiver, raw: bytes): (a: set<bytes>)
  {
    match Decode(raw) case Ok(MetadataMsg(m)) => TimeAnswers(w, r, m) case _ => {}
  }

  ghost predicate Enabled(w: World, s: Sys, e: Event)
  {
    var r := s.receiver;
    match e
    case StartSend(m, _) => Honest(w, m)
    case SendMetadata(id) => id in s.senders && !s.senders[id].phase.Finished?
    case SendChunk(id, index) =>
      id in s.senders && !s.senders[id].phase.Finished? && 0 <= index < s.senders[id].manifest.totalChunks
    case SendBeacon(id, _) => id in s.senders && !s.senders[id].phase.Finished?
    case SenderReceive(id, raw) => id in s.senders && raw in s.net && Arrives(w, raw)
    case SenderEndStream(id) => id in s.senders
    case SenderGiveUp(id) => id in s.senders
    case Deliver(raw, _) => raw in s.net && Arrives(w, raw) && r.todo == []
    case MainTask(_) => r.todo != []
    case RepairTimer(_, _) => true
    case StaleTimer(_, _) => r.todo == []
    case FlushTimer(_) => true
    case ExpireTimer(_) => true
    case BeginFinalize(id, _) =>
      r.working.None? && r.queue != [] && id in r.transfers && r.transfers[id].part == r.queue[0].part
    case EndFinalize(_) => r.working.Some?
    case CrashRestart(_) => true
  }

  /** A delivery that is cut at the end of the read changes nothing, at the receiver and at a sender. */
  lemma CutIsNothing(w: World, c: Config, r: Receiver, e: Endpoint, now: real, m: Message)
    requires Encode(m).Ok? && |Encode(m).value| > READ_SIZE
    ensures Handle(w.host, c, r, now, Read(Encode(m).value)) == Outcome(r, [])
    ensures OnDatagram(e, Read(Encode(m).value)) == e
  {
    CutIsRefused(m);
    hide Decode, Encode;
  }

  ghost function Step(w: World, c: Config, s: Sys, e: Event): (t: Sys)
  {
    var r := s.receiver;
    if !Enabled(w, s, e) then s
    else
      match e
      case StartSend(m, pumping) => s.(senders := s.senders[m.id := Endpoint(m, Streaming(pumping, false))])
      case SendMetadata(id) => Post(s, MetadataMsg(s.senders[id].manifest))
      case SendChunk(id, index) =>
        var m := s.senders[id].manifest;
        var payload := if m.chunkSize > 0 then ChunkOf(w.source(SignatureOf(m)), m.chunkSize, index) else [];
        Post(s, DataMsg(Chunk(id, index, payload)))
      case SendBeacon(id, peerAge) => Post(s, BeaconMsg(Beacon(SENDER, id, peerAge)))
      case SenderReceive(id, raw) => s.(senders := s.senders[id := OnDatagram(s.senders[id], raw)])
      case SenderEndStream(id) => s.(senders := s.senders[id := s.senders[id].(phase := EndStream(s.senders[id]))])
      case SenderGiveUp(id) =>
        if s.senders[id].phase.Finished? then s else s.(senders := s.senders[id := s.senders[id].(phase := Finished(false))])
      case Deliver(raw, now) => AfterReceiver(w, s, Handle(w.host, c, r, now, raw), DeliverAnswers(w, r, raw))
      case MainTask(now) => AfterReceiver(w, s, RunTask(w.host, c, r, now), {})
      case RepairTimer(id, now) => AfterReceiver(w, s, RepairTick(c, r, now, id), {})
      case StaleTimer(id, now) => AfterReceiver(w, s, Outcome(StaleCheck(c, r, now, id), []), {})
      case FlushTimer(now) => AfterReceiver(w, s, Outcome(Flush(c, r, now, false), []), {})
      case ExpireTimer(now) => AfterReceiver(w, s, Outcome(r.(pre := EvictExpired(c.pre, r.pre, now)), []), {})
      case BeginFinalize(id, fileTime) =>
        AfterReceiver(w, s, Outcome(FinalizeBegin(w.host, c, r, id, fileTime), []), {})
      case EndFinalize(now) => AfterReceiver(w, s, FinalizeEnd(c, r, now), {})
      case CrashRestart(now) => AfterReceiver(w, s, Outcome(Restart(w.host, c, r, now), []), {})
  }

  /** The receiver's part of an event that is possible. */
  ghost function ReceiverAfter(w: World, c: Config, s: Sys, e: Event): (q: Receiver)
    requires Enabled(w, s, e)
  {
    var r := s.receiver;
    match e
    case Deliver(raw, now) => Handle(w.host, c, r, now, raw).state
    case MainTask(now) => RunTask(w.host, c, r, now).state
    case RepairTimer(id, now) => RepairTick(c, r, now, id).state
    case StaleTimer(id, now) => StaleCheck(c, r, now, id)
    case FlushTimer(now) => Flush(c, r, now, false)
    case ExpireTimer(now) => r.(pre := EvictExpired(c.pre, r.pre, now))
    case BeginFinalize(id, fileTime) => FinalizeBegin(w.host, c, r, id, fileTime)
    case EndFinalize(now) => FinalizeEnd(c, r, now).state
    case CrashRestart(now) => Restart(w.host, c, r, now)
    case _ => r
  }

  lemma StepReceiver(w: World, c: Config, s: Sys, e: Event)
    ensures Step(w, c, s, e).receiver == if Enabled(w, s, e) then ReceiverAfter(w, c, s, e) else s.receiver
  {
    hide Handle, RunTask, RepairTick, StaleCheck, Flush, EvictExpired, FinalizeBegin, FinalizeEnd, Restart, OnDatagram,
         EndStream, Datagrams, Seen, DeliverAnswers, ChunkOf, Honest, Arrives;
  }

  predicate OfSender(e: Event)
  {
    || e.StartSend? || e.SendMetadata? || e.SendChunk? || e.SendBeacon? || e.SenderReceive? || e.SenderEndStream?
    || e.SenderGiveUp?
  }

  lemma SendersLeaveReceiver(w: World, c: Config, s: Sys, e: Event)
    requires OfSender(e)
    ensures Step(w, c, s, e).receiver == s.receiver
  {
    StepReceiver(w, c, s, e);
    hide Step, Enabled;
  }

  /** The receiver's first start, on a directory that may hold any final files and leftover part files of the right
      size; nobody is sending and nothing is on the network. */
  ghost predicate Init(w: World, s: Sys)
  {
    var r := s.receiver;
    && r.transfers == map[] && r.index == map[] && r.pre == EMPTY && r.cache == map[] && r.todo == [] && r.queue == []
    && r.working == None && r.journal == map[] && PartsOk(w, r.parts)
    && s.senders == map[] && s.net == {} && s.history == History(Observed(w, r), {})
  }

  ghost function Run(w: World, c: Config, s: Sys, events: seq<Event>, n: nat): (t: Sys)
    requires n <= |events|
  {
    if n == 0 then s else Step(w, c, Run(w, c, s, events, n - 1), events[n - 1])
  }

  // ---------------------------------------------------------------- the invariant

  ghost predicate NetOk(w: World, h: History, net: set<bytes>)
  {
    forall raw :: raw in net && Decode(raw).Ok? ==> MessageOk(w, h, Decode(raw).value)
  }

  /** A sender that has its COMPLETE has it for a reason. */
  ghost predicate SenderOk(w: World, h: History, id: bytes, e: Endpoint)
  {
    && Honest(w, e.manifest) && e.manifest.id == id
    && (e.phase == Finished(true) || (e.phase.Streaming? && e.phase.signal) ==>
          e.manifest.totalChunks == 0 || Published(w, h, w.sigOf(id)) || id in h.byTime)
  }

  ghost predicate SysInv(w: World, s: Sys)
  {
    && Inv(w, s.history, s.receiver)
    && NetOk(w, s.history, s.net)
    && forall id :: id in s.senders ==> SenderOk(w, s.history, id, s.senders[id])
  }

  /** An encoded message, if it decodes at all, decodes to a message just as sound. */
  lemma EncodedOk(w: World, h: History, m: Message)
    requires MessageOk(w, h, m) && Encode(m).Ok?
    ensures Decode(Encode(m).value).Ok? ==> MessageOk(w, h, Decode(Encode(m).value).value)
  {
    match m
    case MetadataMsg(x) => MessageRoundTrip(m);
    case DataMsg(c) => MessageRoundTrip(m);
    case BeaconMsg(b) => MessageRoundTrip(m);
    case StatusMsg(s) => StatusRoundTrip(s);
  }

  lemma DatagramsOk(w: World, h: History, net: set<bytes>, ms: seq<Message>)
    requires NetOk(w, h, net) && AllOk(w, h, ms)
    ensures NetOk(w, h, net + Datagrams(ms))
  {
    hide MessageOk, Decode, Encode;
    forall raw | raw in net + Datagrams(ms) && Decode(raw).Ok? ensures MessageOk(w, h, Decode(raw).value) {
      if raw !in net {
        var k :| 0 <= k < |ms| && Encode(ms[k]).Ok? && Encode(ms[k]).value == raw;
        EncodedOk(w, h, ms[k]);
      }
    }
  }

  lemma LaterNet(w: World, h: History, k: History, net: set<bytes>)
    requires NetOk(w, h, net) && Later(h, k)
    ensures NetOk(w, k, net)
  {
    hide MessageOk, Decode;
    forall raw | raw in net && Decode(raw).Ok? ensures MessageOk(w, k, Decode(raw).value) {
      LaterMessage(w, h, k, Decode(raw).value);
    }
  }

  /** A receiver step that keeps the receiver's invariant and sends sound messages keeps the system's. */
  lemma AfterReceiverOk(w: World, s: Sys, o: Outcome, answers: set<bytes>)
    requires SysInv(w, s)
    requires Inv(w, Seen(w, s.history, o.state, answers), o.state)
    requires AllOk(w, Seen(w, s.history, o.state, answers), o.sent)
    ensures SysInv(w, AfterReceiver(w, s, o, answers))
  {
    var k := Seen(w, s.history, o.state, answers);
    LaterNet(w, s.history, k, s.net);
    DatagramsOk(w, k, s.net, o.sent);
    hide Inv, NetOk, AllOk, Honest;
  }

  lemma SeenLater(w: World, h: History, r: Receiver, q: Receiver, answers: set<bytes>)
    requires Inv(w, h, r)
    ensures Later(h, Seen(w, h, q, answers)) && Inv(w, Seen(w, h, q, answers), r)
    ensures SeesFinals(w, Seen(w, h, q, answers), q)
  {
    LaterKeeps(w, h, Seen(w, h, q, answers), r);
    hide Inv;
  }

  lemma DeliverOk(w: World, c: Config, s: Sys, raw: bytes, now: real)
    requires SysInv(w, s) && raw in s.net && s.receiver.todo == []
    ensures SysInv(w, AfterReceiver(w, s, Handle(w.host, c, s.receiver, now, raw), DeliverAnswers(w, s.receiver, raw)))
  {
    var r, o, a := s.receiver, Handle(w.host, c, s.receiver, now, raw), DeliverAnswers(w, s.receiver, raw);
    var k := Seen(w, s.history, o.state, a);
    SeenLater(w, s.history, r, o.state, a);
    NetMessage(w, s, raw);
    hide Inv, NetOk, HandleMetadata, HandleBeacon, AcceptData, Decode, HonestChunk, Honest, SysInv;
    match Decode(raw) {
      case Ok(MetadataMsg(m)) =>
        HandleMetadataOk(w, s.history, k, c, r, m);
      case Ok(DataMsg(d)) =>
        AcceptDataOk(w, k, c, r, now, d.id, d.index, d.payload);
      case Ok(BeaconMsg(b)) =>
        BeaconOk(w, k, r, now, b.id);
      case _ =>
    }
    AfterReceiverOk(w, s, o, a);
  }

  lemma NetMessage(w: World, s: Sys, raw: bytes)
    requires SysInv(w, s) && raw in s.net
    ensures Decode(raw).Ok? ==> MessageOk(w, s.history, Decode(raw).value)
    ensures Inv(w, s.history, s.receiver)
  {
    hide Inv, MessageOk, Decode;
  }

  lemma SenderStepOk(w: World, s: Sys, id: bytes, e: Endpoint)
    requires SysInv(w, s) && SenderOk(w, s.history, id, e)
    ensures SysInv(w, s.(senders := s.senders[id := e]))
  {
    hide Inv, NetOk, SenderOk;
  }

  lemma OneSender(w: World, s: Sys, id: bytes)
    requires SysInv(w, s) && id in s.senders
    ensures SenderOk(w, s.history, id, s.senders[id])
  {
    hide Inv, NetOk, SenderOk;
  }

  lemma SenderReceiveOk(w: World, s: Sys, id: bytes, raw: bytes)
    requires SysInv(w, s) && id in s.senders && raw in s.net
    ensures SysInv(w, s.(senders := s.senders[id := OnDatagram(s.senders[id], raw)]))
  {
    OneSender(w, s, id);
    NetMessage(w, s, raw);
    hide SysInv, Decode, Published, Honest;
    SenderStepOk(w, s, id, OnDatagram(s.senders[id], raw));
  }

  lemma PostOk(w: World, s: Sys, m: Message)
    requires SysInv(w, s) && MessageOk(w, s.history, m)
    ensures SysInv(w, Post(s, m))
  {
    hide MessageOk;
    assert AllOk(w, s.history, [m]);
    hide Inv, SenderOk, NetOk;
    DatagramsOk(w, s.history, s.net, [m]);
  }

  lemma SendChunkOk(w: World, m: Manifest, index: int)
    requires Honest(w, m) && 0 <= index < m.totalChunks
    ensures m.chunkSize > 0 && HonestChunk(w, m.id, index, ChunkOf(w.source(SignatureOf(m)), m.chunkSize, index))
  {
    TotalNat(m);
  }

  /** A receiver step that sends nothing. */
  lemma QuietOk(w: World, s: Sys, q: Receiver)
    requires SysInv(w, s) && Inv(w, Seen(w, s.history, q, {}), q)
    ensures SysInv(w, AfterReceiver(w, s, Outcome(q, []), {}))
  {
    hide Inv, SysInv;
    AfterReceiverOk(w, s, Outcome(q, []), {});
  }

  lemma SysReceiver(w: World, s: Sys)
    requires SysInv(w, s)
    ensures Inv(w, s.history, s.receiver)
  {
    hide Inv;
  }

  /** Every event of a sender keeps the invariant. */
  lemma SenderEventOk(w: World, c: Config, s: Sys, e: Event)
    requires SysInv(w, s) && OfSender(e)
    ensures SysInv(w, Step(w, c, s, e))
  {
    var h := s.history;
    hide Inv, SysInv, SenderOk, Post, OnDatagram, HonestChunk;
    if Enabled(w, s, e) {
      match e
      case StartSend(m, pumping) =>
        StartOk(w, s, m, pumping);
      case SendMetadata(id) =>
        OneSender(w, s, id);
        SenderMetadata(w, h, id, s.senders[id]);
        PostOk(w, s, MetadataMsg(s.senders[id].manifest));
      case SendChunk(id, index) =>
        OneSender(w, s, id);
        SenderChunk(w, h, id, s.senders[id], index);
        var m := s.senders[id].manifest;
        PostOk(w, s, DataMsg(Chunk(id, index, ChunkOf(w.source(SignatureOf(m)), m.chunkSize, index))));
      case SendBeacon(id, peerAge) =>
        PostOk(w, s, BeaconMsg(Beacon(SENDER, id, peerAge)));
      case SenderReceive(id, raw) =>
        SenderReceiveOk(w, s, id, raw);
      case SenderEndStream(id) =>
        OneSender(w, s, id);
        SenderPhases(w, h, id, s.senders[id]);
        SenderStepOk(w, s, id, s.senders[id].(phase := EndStream(s.senders[id])));
      case SenderGiveUp(id) =>
        OneSender(w, s, id);
        SenderPhases(w, h, id, s.senders[id]);
        SenderStepOk(w, s, id, s.senders[id].(phase := Finished(false)));
      case _ =>
    }
  }

  /** Every event keeps the invariant. */
  lemma StepOk(w: World, c: Config, s: Sys, e: Event)
    requires SysInv(w, s)
    ensures SysInv(w, Step(w, c, s, e))
  {
    var r, h := s.receiver, s.history;
    SysReceiver(w, s);
    hide Inv, SysInv, SenderOk, RunTask, RepairTick, StaleCheck, Flush, FinalizeBegin, FinalizeEnd, Restart, Handle,
         AfterReceiver, Post, OnDatagram, HonestChunk, EvictExpired, Seen, DeliverAnswers;
    if OfSender(e) {
      SenderEventOk(w, c, s, e);
    } else if Enabled(w, s, e) {
      match e
      case Deliver(raw, now) =>
        DeliverOk(w, c, s, raw, now);
      case MainTask(now) =>
        var o := RunTask(w.host, c, r, now);
        SeenLater(w, h, r, o.state, {});
        RunTaskOk(w, Seen(w, h, o.state, {}), c, r, now);
        AfterReceiverOk(w, s, o, {});
      case RepairTimer(id, now) =>
        var o := RepairTick(c, r, now, id);
        SeenLater(w, h, r, o.state, {});
        RepairTickOk(w, Seen(w, h, o.state, {}), c, r, now, id);
        AfterReceiverOk(w, s, o, {});
      case StaleTimer(id, now) =>
        SeenLater(w, h, r, StaleCheck(c, r, now, id), {});
        StaleCheckOk(w, Seen(w, h, StaleCheck(c, r, now, id), {}), c, r, now, id);
        QuietOk(w, s, StaleCheck(c, r, now, id));
      case FlushTimer(now) =>
        SeenLater(w, h, r, Flush(c, r, now, false), {});
        FlushOk(w, Seen(w, h, Flush(c, r, now, false), {}), c, r, now, false);
        QuietOk(w, s, Flush(c, r, now, false));
      case ExpireTimer(now) =>
        var q := r.(pre := EvictExpired(c.pre, r.pre, now));
        SeenLater(w, h, r, q, {});
        ExpireOk(w, Seen(w, h, q, {}), c.pre, r, now);
        QuietOk(w, s, q);
      case BeginFinalize(id, fileTime) =>
        var q := FinalizeBegin(w.host, c, r, id, fileTime);
        SeenLater(w, h, r, q, {});
        FinalizeBeginOk(w, h, Seen(w, h, q, {}), c, r, id, fileTime);
        QuietOk(w, s, q);
      case EndFinalize(now) =>
        var o := FinalizeEnd(c, r, now);
        SeenLater(w, h, r, o.state, {});
        FinalizeEndOk(w, Seen(w, h, o.state, {}), c, r, now);
        AfterReceiverOk(w, s, o, {});
      case CrashRestart(now) =>
        SeenLater(w, h, r, Restart(w.host, c, r, now), {});
        RestartOk(w, Seen(w, h, Restart(w.host, c, r, now), {}), c, r, now);
        QuietOk(w, s, Restart(w.host, c, r, now));
    }
  }

  lemma StartOk(w: World, s: Sys, m: Manifest, pumping: bool)
    requires SysInv(w, s) && Honest(w, m)
    ensures SysInv(w, s.(senders := s.senders[m.id := Endpoint(m, Streaming(pumping, false))]))
  {
    hide SysInv, Honest;
    SenderStepOk(w, s, m.id, Endpoint(m, Streaming(pumping, false)));
  }

  lemma SenderMetadata(w: World, h: History, id: bytes, e: Endpoint)
    requires SenderOk(w, h, id, e)
    ensures MessageOk(w, h, MetadataMsg(e.manifest))
  {
    hide Honest, Published;
  }

  lemma SenderChunk(w: World, h: History, id: bytes, e: Endpoint, index: int)
    requires SenderOk(w, h, id, e) && 0 <= index < e.manifest.totalChunks
    ensures e.manifest.chunkSize > 0
    ensures var m := e.manifest;
            MessageOk(w, h, DataMsg(Chunk(id, index, ChunkOf(w.source(SignatureOf(m)), m.chunkSize, index))))
  {
    SendChunkOk(w, e.manifest, index);
    hide Published, HonestChunk;
  }

  lemma SenderPhases(w: World, h: History, id: bytes, e: Endpoint)
    requires SenderOk(w, h, id, e)
    ensures SenderOk(w, h, id, e.(phase := EndStream(e))) && SenderOk(w, h, id, e.(phase := Finished(false)))
  {
    hide Published, Honest;
  }

  lemma InitOk(w: World, s: Sys)
    requires Init(w, s)
    ensures SysInv(w, s)
  {
    hide PartsOk;
  }

  lemma {:induction false} RunOk(w: World, c: Config, s: Sys, events: seq<Event>, n: nat)
    requires Init(w, s) && n <= |events|
    ensures SysInv(w, Run(w, c, s, events, n))
  {
    hide SysInv, Init, Step;
    if n == 0 {
      InitOk(w, s);
    } else {
      RunOk(w, c, s, events, n - 1);
      StepOk(w, c, Run(w, c, s, events, n - 1), events[n - 1]);
    }
  }
}
