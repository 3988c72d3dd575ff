/** The repair rounds of `Repair` as rounds of the receiver.  A round begins with a turn that may ask: a tick of the repair
    timer, or METADATA of the transfer once more.  When it does ask, the request crosses the network in a STATUS frame, the
    sender services it, and what arrives is accepted.  The timer asks from some number of chunks on, METADATA as soon as
    anything has been received, so repair finishes exactly the files that it may ask for and whose missing chunks and
    requests all arrive. */
module RepairRounds {
  import opened Bytes
  import opened Ranges
  import opened Frames
  import opened Repair
  import opened PreMetadata
  import opened Pacing
  import opened ReceiverModel
  import opened Safety
  import opened Invariant
  import opened Delivery
  import opened RepairDelivery

  // ---------------------------------------------------------------- the turn that may ask

  /** What makes the receiver ask: a tick of its repair timer, or a METADATA of the transfer. */
  datatype Prompt = Timer | Announcement(manifest: Manifest)

  /** The turn: `_maybe_send_periodic_repair_request`, or `_prepare_transfer` up to the advertised state. */
  function Prompted(h: Host, c: Config, p: Prompt, r: Receiver, now: real, id: bytes): (o: Outcome)
  {
    match p
    case Timer => RepairTick(c, r, now, id)
    case Announcement(m) =>
      var o := HandleMetadata(h, c, r, m);
      if o.state.todo == [] then o
      else
        var q := RunTask(h, c, o.state, now);
        Outcome(q.state, o.sent + q.sent)
  }

  /** The sender services what a turn has sent, if it asks for chunks and arrives, up to a chunk that it cannot encode, and
      every chunk that arrives is accepted. */
  ghost function Served(w: World, c: Config, o: Outcome, now: real, id: bytes): (q: Receiver)
  {
    if id !in o.state.transfers || o.state.transfers[id].manifest.totalChunks < 0 || o.sent == [] then o.state
    else
      var raw := Encode(o.sent[0]);
      if raw.Err? || !Arrives(w, raw.value) then o.state
      else
        match Decode(raw.value)
        case Ok(StatusMsg(s)) =>
          if !s.kind.TRANSFER? || s.id != id || !s.state.INCOMPLETE? then o.state
          else
            var total := o.state.transfers[id].manifest.totalChunks;
            var xs := Serviced(Expand(s.missing), total, |Expand(s.missing)|);
            var d := Across(w, id, xs, |xs|);
            AcceptCalls(c, o.state, Always(now), id, d, |d|)
        case _ => o.state
  }

  /** One round in which nothing is lost that can arrive. */
  ghost function RepairRound(w: World, c: Config, p: Prompt, r: Receiver, now: real, id: bytes): (q: Receiver)
  {
    Served(w, c, Prompted(w.host, c, p, r, now, id), now, id)
  }

  // ---------------------------------------------------------------- when it asks

  /** The limits of the request: the boosted ones for the timer, the plain ones for an advertised state. */
  function Limits(c: Config, p: Prompt): (l: RepairConfig)
  {
    if p.Timer? then c.repair else Plain(c.repair)
  }

  /** The ranges that a request of the transfer would name. */
  function AskedRanges(c: Config, p: Prompt, t: Transfer): (l: seq<Range>)
  {
    if t.manifest.totalChunks < 0 then [] else Request(Limits(c, p), ProgressOf(t), t.manifest.totalChunks)
  }

  /** The file at the destination does not answer the METADATA. */
  ghost predicate Unanswered(w: World, r: Receiver, m: Manifest)
  {
    !FileInfoQuery(m) && w.host.dest(m.name).Some? && Matching(w.host, r, w.host.dest(m.name).value, m).NoMatch?
  }

  /** Whether the receiver asks for chunks of the transfer at all: the timer from a chunk far enough on, METADATA as soon as
      anything has been received. */
  ghost predicate Open(w: World, c: Config, p: Prompt, r: Receiver, id: bytes)
    requires id in r.transfers
  {
    var t := r.transfers[id];
    && c.pacing.feedback
    && match p
       case Timer => c.pacing.period > 0.0 && t.highest + 1 >= c.pacing.minSeen
       case Announcement(m) => t.received != {} && Unanswered(w, r, m)
  }

  /** Whether it is time to ask. */
  predicate InTurn(c: Config, p: Prompt, t: Transfer, now: real)
  {
    match p
    case Timer => (var (ok, q) := CanSend(c.pacing, t.pace, |t.received|, now);
                   ok && !(q.last > 0.0 && now - q.last < c.pacing.period))
    case Announcement(_) => !(t.lastData > 0.0 && now - t.lastData < c.quiet)
  }

  ghost predicate Asks(w: World, c: Config, p: Prompt, r: Receiver, now: real, id: bytes)
    requires id in r.transfers
  {
    r.transfers[id].received != AllOf(r.transfers[id]) && Open(w, c, p, r, id) && InTurn(c, p, r.transfers[id], now)
  }

  /** A prompt about the transfer: METADATA of its id and signature. */
  ghost predicate PromptOk(w: World, p: Prompt, t: Transfer, id: bytes)
  {
    p.Announcement? ==> Honest(w, p.manifest) && p.manifest.id == id && SignatureOf(p.manifest) == Sig(t)
  }

  /** A transfer that repair can be about. */
  ghost predicate Repairable(w: World, c: Config, p: Prompt, r: Receiver, id: bytes)
  {
    && Ready(w, r, id) && Right(w, r, id) && Sendable(c.repair, id, r.transfers[id].manifest.totalChunks)
    && r.todo == [] && PromptOk(w, p, r.transfers[id], id)
  }

  lemma RepairableHas(w: World, c: Config, p: Prompt, r: Receiver, id: bytes)
    requires Repairable(w, c, p, r, id)
    ensures id in r.transfers && r.transfers[id].manifest.totalChunks >= 0 && Ready(w, r, id) && Right(w, r, id)
    ensures Sendable(Limits(c, p), id, r.transfers[id].manifest.totalChunks)
    ensures r.transfers[id].manifest.id == id && r.todo == []
  {
    TotalNat(r.transfers[id].manifest);
    hide Right;
  }

  /** The request names new chunks of the file, in increasing order, and some exactly while any is missing. */
  lemma AskedFacts(w: World, c: Config, p: Prompt, r: Receiver, id: bytes)
    requires Repairable(w, c, p, r, id)
    ensures id in r.transfers && r.transfers[id].manifest.totalChunks >= 0
    ensures var t := r.transfers[id];
            var xs := Expand(AskedRanges(c, p, t));
            && Increasing(xs) && ChunksOf(w, id, xs)
            && (forall k :: 0 <= k < |xs| ==> xs[k] in AllOf(t) - t.received)
            && (xs == [] <==> t.received == AllOf(t))
  {
    RepairableHas(w, c, p, r, id);
    var t := r.transfers[id];
    var q, total := ProgressOf(t), t.manifest.totalChunks;
    var l := Request(Limits(c, p), q, total);
    RequestFacts(Limits(c, p), q, total);
    ExpandMeaning(l);
    var xs := Expand(l);
    forall k | 0 <= k < |xs| ensures xs[k] in AllOf(t) - t.received {
      assert xs[k] in Elems(l);
    }
    hide Request, Expand, Elems, Canonical;
    if t.received != AllOf(t) {
      SomeMissing(t.received, AllOf(t));
    }
  }

  lemma SomeMissing(s: set<int>, all: set<int>)
    requires s <= all && s != all
    ensures all - s != {}
  {
    assert all == s + (all - s);
  }

  // ---------------------------------------------------------------- what the turn leaves and sends

  /** Only the pacing fields of the transfer have changed, and the cache. */
  predicate TurnKeeps(r: Receiver, q: Receiver, id: bytes, now: real)
  {
    id in r.transfers && id in q.transfers &&
    var t, u := r.transfers[id], q.transfers[id];
    && u == t.(pace := u.pace) && (u.pace.last == t.pace.last || u.pace.last == 0.0 || u.pace.last == now)
    && q == r.(transfers := r.transfers[id := u], cache := q.cache)
  }

  /** METADATA is answered by the file at the destination afterwards exactly if it was before. */
  ghost predicate SameAnswer(w: World, p: Prompt, r: Receiver, q: Receiver)
  {
    p.Announcement? ==> (Unanswered(w, q, p.manifest) <==> Unanswered(w, r, p.manifest))
  }

  /** Nothing that asks for chunks of the transfer. */
  predicate AsksNothing(sent: seq<Message>, id: bytes)
  {
    sent == [] || (exists state :: sent == [StatusMsg(Status(id, TRANSFER, state, [], None, None))])
  }

  ghost predicate TurnOutcome(w: World, c: Config, p: Prompt, r: Receiver, now: real, id: bytes, o: Outcome)
    requires id in r.transfers
  {
    && TurnKeeps(r, o.state, id, now) && SameAnswer(w, p, r, o.state)
    && if Asks(w, c, p, r, now, id) then o.sent == [StatusMsg(RepairStatus(id, AskedRanges(c, p, r.transfers[id])))]
       else AsksNothing(o.sent, id)
  }

  lemma SameMissing(t: Transfer)
    requires t.manifest.totalChunks >= 0
    ensures MissingOf(t) == RangesBelow(Missing(ProgressOf(t), t.manifest.totalChunks), t.manifest.totalChunks)
  {
  }

  /** A request counts chunks exactly while any is missing. */
  lemma AskedLength(w: World, c: Config, p: Prompt, r: Receiver, id: bytes)
    requires Repairable(w, c, p, r, id)
    ensures id in r.transfers
    ensures var t := r.transfers[id];
            var l := AskedRanges(c, p, t);
            Length(l, |l|) > 0 <==> t.received != AllOf(t)
  {
    hide Repairable, AskedRanges, AllOf, ChunksOf, Increasing;
    AskedFacts(w, c, p, r, id);
    AskedCanonical(w, c, p, r, id);
    var l := AskedRanges(c, p, r.transfers[id]);
    LengthIsSize(l, |l|);
    ExpandMeaning(l);
    assert l[..|l|] == l;
    hide Canonical, Elems, Expand, Length;
  }

  lemma AskedCanonical(w: World, c: Config, p: Prompt, r: Receiver, id: bytes)
    requires Repairable(w, c, p, r, id)
    ensures id in r.transfers && Canonical(AskedRanges(c, p, r.transfers[id]))
    ensures |AskedRanges(c, p, r.transfers[id])| <= c.repair.maxChunks
  {
    RepairableHas(w, c, p, r, id);
    var t := r.transfers[id];
    hide Repairable, Ready, Right, Request, Canonical, RangesBelow, Elems, Expand;
    RequestFacts(Limits(c, p), ProgressOf(t), t.manifest.totalChunks);
  }

  /** What a tick of the timer is for a transfer that is not finalized. */
  lemma TickIs(c: Config, r: Receiver, now: real, id: bytes)
    requires id in r.transfers && !r.transfers[id].done && !r.transfers[id].finalized
    requires r.transfers[id].manifest.totalChunks >= 0
    ensures var o, t := RepairTick(c, r, now, id), r.transfers[id];
            var l := AskedRanges(c, Timer, t);
            var (pace, sends) := Periodic(c.pacing, t.pace, |t.received|, t.highest, Length(l, |l|), now);
            && o.state == r.(transfers := r.transfers[id := t.(pace := pace)])
            && o.sent == (if sends then [StatusMsg(RepairStatus(t.manifest.id, l))] else [])
  {
    SameMissing(r.transfers[id]);
    hide MissingOf, RangesBelow, LimitForTransfer, Periodic, Length, RepairStatus;
  }

  lemma PeriodicIs(c: PacingConfig, p: Pace, received: int, highest: int, requested: int, now: real)
    ensures var (q, sends) := Periodic(c, p, received, highest, requested, now);
            && (q.last == p.last || q.last == 0.0 || q.last == now)
            && (sends <==> c.feedback && c.period > 0.0 && highest + 1 >= c.minSeen && requested > 0
                           && var (ok, s) := CanSend(c, p, received, now); ok && !(s.last > 0.0 && now - s.last < c.period))
  {
  }

  /** A tick of the timer asks when it may, when it is time, and when anything is missing. */
  lemma TimerTurn(w: World, c: Config, r: Receiver, now: real, id: bytes)
    requires Repairable(w, c, Timer, r, id) && id in r.transfers
    ensures TurnOutcome(w, c, Timer, r, now, id, RepairTick(c, r, now, id))
  {
    AskedLength(w, c, Timer, r, id);
    RepairableHas(w, c, Timer, r, id);
    FlagMeansFull(w, r, id);
    var t := r.transfers[id];
    var l := AskedRanges(c, Timer, t);
    if t.finalized {
      assert r.transfers[id := t] == r.transfers;
      hide AskedRanges, AllOf, Repairable, Ready, Right, Sendable, Length;
    } else {
      hide Repairable, Ready, Right, Sendable, AskedRanges, AllOf, Length, RepairTick, Periodic, CanSend, RepairStatus;
      TickIs(c, r, now, id);
      PeriodicIs(c.pacing, t.pace, |t.received|, t.highest, Length(l, |l|), now);
    }
  }

  lemma FlagMeansFull(w: World, r: Receiver, id: bytes)
    requires Ready(w, r, id)
    ensures !r.transfers[id].done && (r.transfers[id].finalized ==> r.transfers[id].received == AllOf(r.transfers[id]))
  {
    hide Honest;
  }

  /** What METADATA of a registered transfer leads to before the lock. */
  lemma MetadataIs(w: World, c: Config, r: Receiver, m: Manifest)
    requires r.todo == []
    ensures var o := HandleMetadata(w.host, c, r, m);
            && SameAnswer(w, Announcement(m), r, o.state)
            && if Unanswered(w, r, m) then o.state == r.(cache := o.state.cache, todo := [Register(m)]) && o.sent == []
               else o.state == r.(cache := o.state.cache) && (o.sent == [] || o.sent == [CompleteStatus(m.id)])
  {
    hide FileInfoQuery, SourceMtime;
    assert [Register(m)] + r.todo == [Register(m)];
    if FileInfoQuery(m) || w.host.dest(m.name).None? {
    } else if Matching(w.host, r, w.host.dest(m.name).value, m).NoMatch? {
    } else {
    }
  }

  /** What the locked part of METADATA does for a transfer registered under its id. */
  lemma RepeatIs(h: Host, c: Config, r: Receiver, now: real, m: Manifest)
    requires r.todo == [Register(m)] && m.id in r.transfers && SignatureOf(m) == Sig(r.transfers[m.id])
    requires h.dest(m.name).Some?
    ensures RunTask(h, c, r, now) == Outcome(r.(todo := []), AdvertiseState(c, r.transfers[m.id], now))
  {
    hide AdvertiseState, Popped, Pop, WithoutIndex, Zeros;
    assert [Register(m)][1..] == [];
  }

  /** What is advertised of a transfer that is not done. */
  lemma AdvertisedIs(w: World, c: Config, p: Prompt, r: Receiver, now: real, id: bytes)
    requires Repairable(w, c, p, r, id) && p.Announcement?
    ensures id in r.transfers
    ensures var t, sent := r.transfers[id], AdvertiseState(c, r.transfers[id], now);
            if c.pacing.feedback && t.received != {} && t.received != AllOf(t) && InTurn(c, p, t, now)
            then sent == [StatusMsg(RepairStatus(id, AskedRanges(c, p, t)))] else AsksNothing(sent, id)
  {
    AskedFacts(w, c, p, r, id);
    RepairableHas(w, c, p, r, id);
    FlagMeansFull(w, r, id);
    var t := r.transfers[id];
    var missing := MissingOf(t);
    SameMissing(t);
    MissingRangesFacts(ProgressOf(t), t.manifest.totalChunks);
    FirstIsNatural(missing, t.manifest.totalChunks);
    PlainLimits(c.repair, t.highest, missing);
    CountIsFull(w, r, id);
    hide Repairable, Ready, Right, Sendable, MissingOf, AllOf, Elems, Expand, Canonical, RangesBelow, ChunksOf, Increasing,
         LimitForTransfer;
    if t.received == AllOf(t) {
      assert LimitMissing(c.repair, []) == [];
    }
  }

  lemma FirstIsNatural(l: seq<Range>, total: int)
    requires Within(l, 0, total)
    ensures l != [] ==> l[0].start >= 0
  {
  }

  lemma CountIsFull(w: World, r: Receiver, id: bytes)
    requires Ready(w, r, id)
    ensures var t := r.transfers[id];
            && (|t.received| > 0 <==> t.received != {})
            && (|t.received| < t.manifest.totalChunks <==> t.received != AllOf(t))
  {
    var t := r.transfers[id];
    TotalNat(t.manifest);
    FullIff(t.received, t.manifest.totalChunks);
    hide Honest;
  }

  /** METADATA changes at most the cache, and advertises the transfer when the file at the destination does not answer. */
  lemma AnnouncedIs(w: World, c: Config, p: Prompt, r: Receiver, now: real, id: bytes)
    requires Repairable(w, c, p, r, id) && id in r.transfers && p.Announcement?
    ensures var o := Prompted(w.host, c, p, r, now, id);
            && o.state == r.(cache := o.state.cache) && SameAnswer(w, p, r, o.state)
            && if Unanswered(w, r, p.manifest) then o.sent == AdvertiseState(c, r.transfers[id], now)
               else o.sent == [] || o.sent == [CompleteStatus(id)]
  {
    var m := p.manifest;
    RepairableHas(w, c, p, r, id);
    assert PromptOk(w, p, r.transfers[id], id);
    MetadataIs(w, c, r, m);
    hide Repairable, Ready, Right, Sendable, AllOf, HandleMetadata, RunTask, AdvertiseState, Honest;
    var o := HandleMetadata(w.host, c, r, m);
    if Unanswered(w, r, m) {
      RepeatIs(w.host, c, o.state, now, m);
    }
    hide Unanswered;
  }

  /** METADATA asks when the file at the destination does not answer it, something has been received and something is
      missing, outside the quiet time. */
  lemma AnnouncementTurn(w: World, c: Config, p: Prompt, r: Receiver, now: real, id: bytes)
    requires Repairable(w, c, p, r, id) && id in r.transfers && p.Announcement?
    ensures TurnOutcome(w, c, p, r, now, id, Prompted(w.host, c, p, r, now, id))
  {
    AnnouncedIs(w, c, p, r, now, id);
    AdvertisedIs(w, c, p, r, now, id);
    hide Repairable, Prompted, AllOf, AdvertiseState, AskedRanges, InTurn, Unanswered, RepairStatus;
    assert r.transfers[id := r.transfers[id]] == r.transfers;
  }

  // ---------------------------------------------------------------- one round

  /** The request arrives: its STATUS frame, with the ranges it really names, is not too long. */
  predicate RequestArrives(w: World, c: Config, p: Prompt, t: Transfer)
  {
    HEADER_SIZE + STATUS_FIXED + 8 * |AskedRanges(c, p, t)| <= Largest(w)
  }

  /** The chunks that a round services. */
  ghost function RoundAsks(w: World, c: Config, p: Prompt, r: Receiver, now: real, id: bytes): (xs: seq<int>)
    requires id in r.transfers
  {
    var t := r.transfers[id];
    if Asks(w, c, p, r, now, id) && RequestArrives(w, c, p, t) then Expand(AskedRanges(c, p, t)) else []
  }

  /** A request decodes as it was sent, and every index it names is serviced. */
  lemma RequestCrosses(w: World, c: Config, p: Prompt, r: Receiver, id: bytes)
    requires Repairable(w, c, p, r, id)
    ensures id in r.transfers && r.transfers[id].manifest.totalChunks >= 0
    ensures var t := r.transfers[id];
            var l := AskedRanges(c, p, t);
            var m := StatusMsg(RepairStatus(id, l));
            && Encode(m).Ok? && Decode(Encode(m).value) == Ok(m)
            && (Arrives(w, Encode(m).value) <==> RequestArrives(w, c, p, t))
            && Serviced(Expand(l), t.manifest.totalChunks, |Expand(l)|) == Expand(l)
  {
    RepairableHas(w, c, p, r, id);
    AskedCanonical(w, c, p, r, id);
    var t := r.transfers[id];
    var l, total := AskedRanges(c, p, t), t.manifest.totalChunks;
    hide Repairable, Ready, Right, Encode, Decode, Serviced, Expand, Request, Canonical, Elems;
    RequestFacts(Limits(c, p), ProgressOf(t), total);
    RoundServices(Limits(c, p), id, ProgressOf(t), total);
    ElemsWithin(l, 0, total);
    StatusSendable(id, INCOMPLETE, l, total);
  }

  /** What asks for nothing is serviced with nothing. */
  lemma NothingServed(w: World, c: Config, o: Outcome, now: real, id: bytes)
    requires AsksNothing(o.sent, id) && |id| == ID_SIZE
    ensures Served(w, c, o, now, id) == o.state
  {
    if o.sent != [] {
      var state :| o.sent == [StatusMsg(Status(id, TRANSFER, state, [], None, None))];
      assert Elems([]) == {};
      StatusSendable(id, state, [], 0);
      assert Expand([]) == [];
      hide Encode, Decode;
    }
  }

  lemma RequestServed(w: World, c: Config, p: Prompt, r: Receiver, now: real, id: bytes, o: Outcome)
    requires Repairable(w, c, p, r, id) && id in r.transfers && TurnKeeps(r, o.state, id, now)
    requires o.sent == [StatusMsg(RepairStatus(id, AskedRanges(c, p, r.transfers[id])))]
    ensures var t := r.transfers[id];
            var xs := Expand(AskedRanges(c, p, t));
            var d := Across(w, id, xs, |xs|);
            Served(w, c, o, now, id)
            == if RequestArrives(w, c, p, t) then AcceptCalls(c, o.state, Always(now), id, d, |d|) else o.state
  {
    RequestCrosses(w, c, p, r, id);
    hide Repairable, AskedRanges, Encode, Decode, Serviced, Expand, Across, AcceptCalls, Arrives, RequestArrives;
  }

  /** The turn leaves the transfer ready for what comes. */
  lemma TurnKeepsReady(w: World, c: Config, p: Prompt, r: Receiver, q: Receiver, now: real, id: bytes)
    requires Repairable(w, c, p, r, id) && TurnKeeps(r, q, id, now)
    ensures Repairable(w, c, p, q, id) && QueuedWhenFull(r, q, id) && (FlagIsFull(r, id) ==> FlagIsFull(q, id))
    ensures ProgressOf(q.transfers[id]) == ProgressOf(r.transfers[id])
  {
    hide Honest, HoldsChunk, ManifestOk;
    assert r.queue + [] == r.queue;
  }

  /** What a round from `r` to `q` does: the request it makes, if it makes one that arrives, brings in what comes of it. */
  ghost predicate RoundOutcome(w: World, c: Config, p: Prompt, r: Receiver, q: Receiver, now: real, id: bytes)
  {
    && id in r.transfers && id in q.transfers
    && var t, u := r.transfers[id], q.transfers[id];
       var xs := RoundAsks(w, c, p, r, now, id);
       var ys := Coming(w, id, xs, |xs|);
       && ProgressOf(u) == AcceptFirst(ProgressOf(t), ys, |ys|)
       && (u.pace.last == t.pace.last || u.pace.last == 0.0 || u.pace.last == now)
       && (u.lastData == t.lastData || u.lastData == now) && q.working == r.working
       && SameAnswer(w, p, r, q) && QueuedWhenFull(r, q, id) && (FlagIsFull(r, id) ==> FlagIsFull(q, id))
  }

  lemma TurnIs(w: World, c: Config, p: Prompt, r: Receiver, now: real, id: bytes)
    requires Repairable(w, c, p, r, id)
    ensures id in r.transfers && TurnOutcome(w, c, p, r, now, id, Prompted(w.host, c, p, r, now, id))
  {
    RepairableHas(w, c, p, r, id);
    hide Repairable, TurnOutcome, RepairTick, HandleMetadata, RunTask;
    if p.Timer? {
      TimerTurn(w, c, r, now, id);
    } else {
      AnnouncementTurn(w, c, p, r, now, id);
    }
  }

  lemma SameWhole(u: Transfer, t: Transfer)
    requires u.manifest == t.manifest
    ensures AllOf(u) == AllOf(t)
  {
  }

  lemma RoundAccepts(w: World, c: Config, p: Prompt, r: Receiver, o: Receiver, q: Receiver, now: real, id: bytes,
                     xs: seq<int>)
    requires Repairable(w, c, p, o, id) && TurnKeeps(r, o, id, now) && SameAnswer(w, p, r, o)
    requires Ready(w, q, id) && Right(w, q, id) && CallKeeps(o, q, id, now)
    requires QueuedWhenFull(r, o, id) && QueuedWhenFull(o, q, id)
    requires (FlagIsFull(r, id) ==> FlagIsFull(o, id)) && (FlagIsFull(o, id) ==> FlagIsFull(q, id))
    requires xs == RoundAsks(w, c, p, r, now, id)
    requires var ys := Coming(w, id, xs, |xs|);
             ProgressOf(q.transfers[id]) == AcceptFirst(ProgressOf(o.transfers[id]), ys, |ys|)
    ensures Repairable(w, c, p, q, id) && RoundOutcome(w, c, p, r, q, now, id)
  {
    QueuedTrans(r, o, q, id);
    SameMatching(w, p, o, q);
    hide RoundAsks, Ready, Right, Coming, AcceptFirst, FlagIsFull, Unanswered, Honest;
  }

  lemma SameMatching(w: World, p: Prompt, r: Receiver, q: Receiver)
    requires q.finals == r.finals && q.cache == r.cache
    ensures SameAnswer(w, p, r, q)
  {
    hide FileInfoQuery, SourceMtime;
  }

  lemma NothingAccepted(w: World, c: Config, p: Prompt, r: Receiver, q: Receiver, now: real, id: bytes)
    requires TurnKeeps(r, q, id, now) && SameAnswer(w, p, r, q) && QueuedWhenFull(r, q, id)
    requires FlagIsFull(r, id) ==> FlagIsFull(q, id)
    requires RoundAsks(w, c, p, r, now, id) == []
    ensures RoundOutcome(w, c, p, r, q, now, id)
  {
    hide RoundAsks, FlagIsFull, SameAnswer;
  }

  lemma RoundIs(w: World, c: Config, p: Prompt, r: Receiver, now: real, id: bytes)
    requires Repairable(w, c, p, r, id)
    ensures var q := RepairRound(w, c, p, r, now, id); Repairable(w, c, p, q, id) && RoundOutcome(w, c, p, r, q, now, id)
  {
    TurnIs(w, c, p, r, now, id);
    var o := Prompted(w.host, c, p, r, now, id);
    TurnKeepsReady(w, c, p, r, o.state, now, id);
    RepairableHas(w, c, p, r, id);
    RepairableHas(w, c, p, o.state, id);
    AskedFacts(w, c, p, r, id);
    hide Repairable, Prompted, Served, Asks, AskedRanges, Expand, Across, Coming, AcceptCalls, AcceptFirst, ChunksOf, Increasing,
         Ready, Right, Sendable, AllOf, FlagIsFull, SameAnswer, RequestArrives;
    var t := r.transfers[id];
    if Asks(w, c, p, r, now, id) {
      RequestServed(w, c, p, r, now, id, o);
      if RequestArrives(w, c, p, t) {
        var xs := Expand(AskedRanges(c, p, t));
        SameWhole(o.state.transfers[id], t);
        Arrivals(w, c, o.state, now, id, xs);
        RoundAccepts(w, c, p, r, o.state, RepairRound(w, c, p, r, now, id), now, id, xs);
        return;
      }
    } else {
      NothingServed(w, c, o, now, id);
    }
    NothingAccepted(w, c, p, r, o.state, now, id);
  }

  /** The transfer has moved from `r` to `q` as the round of `Repair` does. */
  ghost predicate AsRound(c: Config, p: Prompt, r: Receiver, q: Receiver, id: bytes)
  {
    && id in r.transfers && id in q.transfers && r.transfers[id].manifest.totalChunks >= 0
    && ProgressOf(q.transfers[id])
       == Round(Limits(c, p), id, ProgressOf(r.transfers[id]), r.transfers[id].manifest.totalChunks)
  }

  lemma RoundIsRequested(w: World, c: Config, p: Prompt, r: Receiver, id: bytes)
    requires Repairable(w, c, p, r, id)
    ensures id in r.transfers && r.transfers[id].manifest.totalChunks >= 0
    ensures var t := r.transfers[id];
            var xs := Expand(AskedRanges(c, p, t));
            Round(Limits(c, p), id, ProgressOf(t), t.manifest.totalChunks) == AcceptFirst(ProgressOf(t), xs, |xs|)
  {
    RepairableHas(w, c, p, r, id);
    var t := r.transfers[id];
    RoundServices(Limits(c, p), id, ProgressOf(t), t.manifest.totalChunks);
    hide Encode, Decode, Expand, Serviced, AcceptFirst, Request, Repairable;
  }

  /** A round of the receiver is the round of `Repair` if and only if nothing is missing, or it asks, its request arrives,
      and every chunk it names fits a DATA frame that arrives.  In any case it brings in exactly the chunks of a request that
      goes through which fit, up to one that the encoder refuses. */
  lemma RepairRoundIsRound(w: World, c: Config, p: Prompt, r: Receiver, now: real, id: bytes)
    requires Repairable(w, c, p, r, id)
    ensures id in r.transfers && id in RepairRound(w, c, p, r, now, id).transfers
    ensures var t := r.transfers[id];
            AsRound(c, p, r, RepairRound(w, c, p, r, now, id), id)
            <==> t.received == AllOf(t) || (Asks(w, c, p, r, now, id) && RequestArrives(w, c, p, t)
                                            && AllFitting(w, id, Expand(AskedRanges(c, p, t))))
    ensures var t, u := r.transfers[id], RepairRound(w, c, p, r, now, id).transfers[id];
            var xs := RoundAsks(w, c, p, r, now, id);
            forall x :: x in u.received <==> x in t.received || Brought(w, id, xs, |xs|, x)
  {
    RoundIs(w, c, p, r, now, id);
    AskedFacts(w, c, p, r, id);
    RoundIsRequested(w, c, p, r, id);
    var t := r.transfers[id];
    var all, xs := Expand(AskedRanges(c, p, t)), RoundAsks(w, c, p, r, now, id);
    NoChunks(w, id, ProgressOf(t), all);
    hide Repairable, RepairRound, Round, AskedRanges, Expand, AcceptFirst, Coming, Brought, AllFitting, ChunksOf, Increasing,
         AllOf, Asks, RequestArrives, SameAnswer, QueuedWhenFull, FlagIsFull;
    OnlyThese(w, id, ProgressOf(t), all);
    OnlyThese(w, id, ProgressOf(t), []);
    assert xs == [] || xs == all;
  }

  /** No chunks are all fitting, are chunks of any file, and are less than some. */
  lemma NoChunks(w: World, id: bytes, p: Progress, all: seq<int>)
    requires ChunksOf(w, id, all) && forall k :: 0 <= k < |all| ==> all[k] !in p.received
    ensures ChunksOf(w, id, []) && AllFitting(w, id, []) && Coming(w, id, [], 0) == [] && AcceptFirst(p, [], 0) == p
    ensures AcceptFirst(p, all, |all|) == p <==> all == []
  {
    if all != [] {
      AcceptFirstMember(p, all, |all|, all[0]);
      assert all[0] in all[..|all|];
    }
    hide ChunksOf, Fitting;
  }

  // ---------------------------------------------------------------- many rounds

  /** The receiver after `k` rounds. */
  ghost function AfterRounds(w: World, c: Config, p: Prompt, r: Receiver, now: Times, id: bytes, k: nat): (q: Receiver)
  {
    if k == 0 then r else RepairRound(w, c, p, AfterRounds(w, c, p, r, now, id, k - 1), now(k), id)
  }

  /** Long enough between two rounds for any request to be due. */
  function Gap(c: Config): (g: real)
    ensures g >= 0.0 && g >= c.pacing.period && g >= c.pacing.inflightTimeout && g >= c.quiet
  {
    var a := if c.pacing.period < 0.0 then 0.0 else c.pacing.period;
    var b := if c.pacing.inflightTimeout < a then a else c.pacing.inflightTimeout;
    if c.quiet < b then b else c.quiet
  }

  /** The rounds are that far apart, from the time `now(0)` on. */
  ghost predicate Spaced(c: Config, now: Times)
  {
    now(0) >= 0.0 && forall j: nat :: now(j) + Gap(c) <= now(j + 1)
  }

  /** The last request and the last data are not after `at`. */
  predicate Settled(t: Transfer, at: real)
  {
    t.pace.last <= at && t.lastData <= at
  }

  lemma DueInTurn(c: Config, p: Prompt, t: Transfer, at: real, now: real)
    requires Settled(t, at) && at + Gap(c) <= now
    ensures InTurn(c, p, t, now)
  {
  }

  lemma {:induction false} LaterTimes(c: Config, now: Times, k: nat)
    requires Spaced(c, now)
    ensures now(k) >= 0.0
  {
    if k > 0 {
      LaterTimes(c, now, k - 1);
    }
  }

  /** What many rounds keep. */
  ghost predicate RoundsOutcome(w: World, p: Prompt, r: Receiver, q: Receiver, id: bytes, at: real)
  {
    && id in r.transfers && id in q.transfers
    && var t, u := r.transfers[id], q.transfers[id];
       && t.received <= u.received && t.highest <= u.highest && Settled(u, at) && q.working == r.working
       && SameAnswer(w, p, r, q) && QueuedWhenFull(r, q, id) && (FlagIsFull(r, id) ==> FlagIsFull(q, id))
  }

  lemma {:induction false} AcceptFirstGrows(p: Progress, xs: seq<int>, n: nat)
    requires n <= |xs|
    ensures p.received <= AcceptFirst(p, xs, n).received && p.highest <= AcceptFirst(p, xs, n).highest
  {
    if n > 0 {
      AcceptFirstGrows(p, xs, n - 1);
    }
  }

  lemma {:induction false} RoundsKeep(w: World, c: Config, p: Prompt, r: Receiver, now: Times, id: bytes, k: nat)
    requires Repairable(w, c, p, r, id) && Spaced(c, now) && id in r.transfers && Settled(r.transfers[id], now(0))
    ensures var q := AfterRounds(w, c, p, r, now, id, k);
            Repairable(w, c, p, q, id) && RoundsOutcome(w, p, r, q, id, now(k))
  {
    hide Repairable, RepairRound, RoundOutcome, SameAnswer, FlagIsFull, QueuedWhenFull;
    if k == 0 {
      RoundsStart(w, p, r, id, now(0));
    } else {
      RoundsKeep(w, c, p, r, now, id, k - 1);
      var q := AfterRounds(w, c, p, r, now, id, k - 1);
      RoundIs(w, c, p, q, now(k), id);
      LaterTimes(c, now, k);
      assert now(k - 1) + Gap(c) <= now(k);
      RoundsNext(w, c, p, r, q, AfterRounds(w, c, p, r, now, id, k), now(k - 1), now(k), id);
    }
  }

  lemma RoundsStart(w: World, p: Prompt, r: Receiver, id: bytes, at: real)
    requires id in r.transfers && Settled(r.transfers[id], at)
    ensures RoundsOutcome(w, p, r, r, id, at)
  {
    QueuedRefl(r, id);
    hide QueuedWhenFull, FlagIsFull, Unanswered;
  }

  lemma RoundsNext(w: World, c: Config, p: Prompt, r: Receiver, q: Receiver, s: Receiver, before: real, at: real, id: bytes)
    requires RoundsOutcome(w, p, r, q, id, before) && RoundOutcome(w, c, p, q, s, at, id) && before <= at && at >= 0.0
    ensures RoundsOutcome(w, p, r, s, id, at)
  {
    var xs := RoundAsks(w, c, p, q, at, id);
    var ys := Coming(w, id, xs, |xs|);
    AcceptFirstGrows(ProgressOf(q.transfers[id]), ys, |ys|);
    QueuedTrans(r, q, s, id);
    hide QueuedWhenFull, FlagIsFull, Unanswered, RoundAsks, Coming, AcceptFirst;
  }

  /** Once it may ask, it always may. */
  lemma StaysOpen(w: World, c: Config, p: Prompt, r: Receiver, q: Receiver, id: bytes, at: real)
    requires RoundsOutcome(w, p, r, q, id, at) && Open(w, c, p, r, id)
    ensures Open(w, c, p, q, id)
  {
    hide Unanswered, QueuedWhenFull, FlagIsFull;
  }

  /** A receiver that may not ask never gets anything. */
  lemma {:induction false} ClosedStays(w: World, c: Config, p: Prompt, r: Receiver, now: Times, id: bytes, k: nat)
    requires Repairable(w, c, p, r, id) && Spaced(c, now) && id in r.transfers && Settled(r.transfers[id], now(0))
    requires !Open(w, c, p, r, id)
    ensures var q := AfterRounds(w, c, p, r, now, id, k);
            id in q.transfers && ProgressOf(q.transfers[id]) == ProgressOf(r.transfers[id]) && !Open(w, c, p, q, id)
  {
    hide Repairable, RepairRound;
    if k > 0 {
      ClosedStays(w, c, p, r, now, id, k - 1);
      RoundsKeep(w, c, p, r, now, id, k - 1);
      var q := AfterRounds(w, c, p, r, now, id, k - 1);
      RoundIs(w, c, p, q, now(k), id);
      hide RoundsOutcome, QueuedWhenFull, FlagIsFull, Unanswered, InTurn, AllOf;
      NothingComes(w, id, ProgressOf(q.transfers[id]));
    }
  }

  lemma NothingComes(w: World, id: bytes, p: Progress)
    ensures Coming(w, id, [], 0) == [] && AcceptFirst(p, [], 0) == p
  {
  }

  // ---------------------------------------------------------------- when repair finishes

  /** Every chunk that the transfer still misses fits a DATA frame that arrives. */
  ghost predicate MissingFit(w: World, r: Receiver, id: bytes)
    requires id in r.transfers
  {
    forall i :: i in AllOf(r.transfers[id]) - r.transfers[id].received ==> Fitting(w, id, i)
  }

  /** The transfer as far on as `k` rounds of `Repair` bring it. */
  function Expected(c: Config, p: Prompt, t: Transfer, id: bytes, k: nat): (u: Transfer)
  {
    if t.manifest.totalChunks < 0 then t
    else
      var q := Rounds(Limits(c, p), id, ProgressOf(t), t.manifest.totalChunks, k);
      t.(received := q.received, highest := q.highest)
  }

  /** The request of that transfer arrives, or it is not needed any more. */
  predicate GoesOn(w: World, c: Config, p: Prompt, t: Transfer)
  {
    t.received == AllOf(t) || RequestArrives(w, c, p, t)
  }

  /** All requests on the way to the whole file arrive. */
  ghost predicate RequestsArrive(w: World, c: Config, p: Prompt, t: Transfer, id: bytes)
  {
    forall j: nat :: GoesOn(w, c, p, Expected(c, p, t, id, j))
  }

  ghost predicate ArriveBelow(w: World, c: Config, p: Prompt, t: Transfer, id: bytes, k: nat)
  {
    forall j: nat :: j < k ==> GoesOn(w, c, p, Expected(c, p, t, id, j))
  }

  lemma SameRequest(w: World, c: Config, p: Prompt, t: Transfer, u: Transfer)
    requires ProgressOf(t) == ProgressOf(u) && t.manifest == u.manifest
    ensures AskedRanges(c, p, t) == AskedRanges(c, p, u) && GoesOn(w, c, p, t) == GoesOn(w, c, p, u)
  {
  }

  /** What many rounds leave as it was. */
  lemma RoundsSame(w: World, p: Prompt, r: Receiver, q: Receiver, id: bytes, at: real)
    requires RoundsOutcome(w, p, r, q, id, at)
    ensures id in r.transfers && id in q.transfers
    ensures var t, u := r.transfers[id], q.transfers[id];
            && u.manifest == t.manifest && u.part == t.part && u.dest == t.dest && AllOf(u) == AllOf(t)
            && t.received <= u.received && Settled(u, at)
  {
    hide FlagIsFull, SameAnswer, AllOf;
    SameWhole(q.transfers[id], r.transfers[id]);
  }

  /** A receiver that may ask, at a time when it is due, of a transfer whose missing chunks and whose request arrive, makes
      the round of `Repair`. */
  lemma GoodRound(w: World, c: Config, p: Prompt, q: Receiver, now: real, id: bytes)
    requires Repairable(w, c, p, q, id) && id in q.transfers && Open(w, c, p, q, id) && MissingFit(w, q, id)
    requires InTurn(c, p, q.transfers[id], now) && GoesOn(w, c, p, q.transfers[id])
    ensures AsRound(c, p, q, RepairRound(w, c, p, q, now, id), id)
  {
    AskedFacts(w, c, p, q, id);
    RepairRoundIsRound(w, c, p, q, now, id);
    hide Repairable, RepairRound, Fitting, Open, InTurn, AsRound, AskedRanges, AllOf, Brought, ChunksOf, Increasing, Expand,
         RequestArrives;
  }

  lemma {:induction false} RoundsAre(w: World, c: Config, p: Prompt, r: Receiver, now: Times, id: bytes, k: nat)
    requires Repairable(w, c, p, r, id) && Spaced(c, now) && id in r.transfers && Settled(r.transfers[id], now(0))
    requires Open(w, c, p, r, id) && MissingFit(w, r, id) && ArriveBelow(w, c, p, r.transfers[id], id, k)
    ensures var q := AfterRounds(w, c, p, r, now, id, k);
            id in q.transfers && ProgressOf(q.transfers[id]) == ProgressOf(Expected(c, p, r.transfers[id], id, k))
  {
    RepairableHas(w, c, p, r, id);
    hide Repairable, RepairRound, Open, InTurn, Fitting, AllOf, GoesOn, RoundsOutcome, Gap, Settled, Round, Limits;
    if k > 0 {
      var t := r.transfers[id];
      RoundsAre(w, c, p, r, now, id, k - 1);
      RoundsKeep(w, c, p, r, now, id, k - 1);
      var q := AfterRounds(w, c, p, r, now, id, k - 1);
      RoundsSame(w, p, r, q, id, now(k - 1));
      StaysOpen(w, c, p, r, q, id, now(k - 1));
      assert now(k - 1) + Gap(c) <= now(k);
      DueInTurn(c, p, q.transfers[id], now(k - 1), now(k));
      SameRequest(w, c, p, q.transfers[id], Expected(c, p, t, id, k - 1));
      GoodRound(w, c, p, q, now(k), id);
    }
  }

  /** A missing chunk that does not fit stays missing, however many rounds are tried. */
  lemma {:induction false} NeverAcross(w: World, c: Config, p: Prompt, r: Receiver, now: Times, id: bytes, k: nat, i: int)
    requires Repairable(w, c, p, r, id) && Spaced(c, now) && id in r.transfers && Settled(r.transfers[id], now(0))
    requires i !in r.transfers[id].received && !Fitting(w, id, i)
    ensures var q := AfterRounds(w, c, p, r, now, id, k); id in q.transfers && i !in q.transfers[id].received
  {
    hide Repairable, RepairRound, Fitting, RoundsOutcome, Asks, RequestArrives, AskedRanges, Expand, AllOf, AllFitting, AsRound;
    if k > 0 {
      NeverAcross(w, c, p, r, now, id, k - 1, i);
      RoundsKeep(w, c, p, r, now, id, k - 1);
      RepairRoundIsRound(w, c, p, AfterRounds(w, c, p, r, now, id, k - 1), now(k), id);
    }
  }

  /** When a request does not arrive, the next is the same, and nothing changes any more. */
  lemma {:induction false} Stuck(w: World, c: Config, p: Prompt, r: Receiver, now: Times, id: bytes, j: nat, k: nat)
    requires Repairable(w, c, p, r, id) && Spaced(c, now) && id in r.transfers && Settled(r.transfers[id], now(0)) && j <= k
    requires var q := AfterRounds(w, c, p, r, now, id, j); id in q.transfers && !GoesOn(w, c, p, q.transfers[id])
    ensures var q, u := AfterRounds(w, c, p, r, now, id, j), AfterRounds(w, c, p, r, now, id, k);
            id in u.transfers && ProgressOf(u.transfers[id]) == ProgressOf(q.transfers[id])
  {
    hide Repairable, RepairRound, RoundsOutcome, Asks, RequestArrives, AskedRanges, AllOf, Settled;
    if k > j {
      Stuck(w, c, p, r, now, id, j, k - 1);
      RoundsKeep(w, c, p, r, now, id, j);
      RoundsKeep(w, c, p, r, now, id, k - 1);
      var s, q := AfterRounds(w, c, p, r, now, id, j), AfterRounds(w, c, p, r, now, id, k - 1);
      RoundsSame(w, p, r, s, id, now(j));
      RoundsSame(w, p, r, q, id, now(k - 1));
      SameRequest(w, c, p, q.transfers[id], s.transfers[id]);
      StuckRound(w, c, p, q, now(k), id);
    }
  }

  lemma StuckRound(w: World, c: Config, p: Prompt, q: Receiver, now: real, id: bytes)
    requires Repairable(w, c, p, q, id) && id in q.transfers && !GoesOn(w, c, p, q.transfers[id])
    ensures var u := RepairRound(w, c, p, q, now, id);
            id in u.transfers && ProgressOf(u.transfers[id]) == ProgressOf(q.transfers[id])
  {
    RoundIs(w, c, p, q, now, id);
    hide Repairable, RepairRound, Asks, RequestArrives, AllOf, SameAnswer, QueuedWhenFull, FlagIsFull;
    NothingComes(w, id, ProgressOf(q.transfers[id]));
  }

  lemma {:induction false} FirstFailure(w: World, c: Config, p: Prompt, t: Transfer, id: bytes, j: nat) returns (i: nat)
    requires !GoesOn(w, c, p, Expected(c, p, t, id, j))
    ensures i <= j && !GoesOn(w, c, p, Expected(c, p, t, id, i)) && ArriveBelow(w, c, p, t, id, i)
  {
    hide GoesOn, Expected;
    if ArriveBelow(w, c, p, t, id, j) {
      i := j;
    } else {
      var k: nat :| k < j && !GoesOn(w, c, p, Expected(c, p, t, id, k));
      i := FirstFailure(w, c, p, t, id, k);
    }
  }

  /** What has every chunk is the source. */
  lemma FullIsSource(w: World, c: Config, p: Prompt, q: Receiver, id: bytes)
    requires Repairable(w, c, p, q, id) && id in q.transfers && q.transfers[id].received == AllOf(q.transfers[id])
    ensures var u := q.transfers[id]; u.part in q.parts && q.parts[u.part] == w.source(Sig(u))
  {
    var u := q.transfers[id];
    TotalNat(u.manifest);
    AllChunksIsSource(w, Sig(u), q.parts[u.part]);
  }

  lemma NotYetFull(w: World, r: Receiver, id: bytes)
    requires Ready(w, r, id) && r.transfers[id].received != AllOf(r.transfers[id])
    ensures FlagIsFull(r, id) && !r.transfers[id].finalized
  {
  }

  lemma FlagAtEnd(q: Receiver, id: bytes)
    requires FlagIsFull(q, id)
    ensures q.transfers[id].finalized <==> q.transfers[id].received == AllOf(q.transfers[id])
  {
  }

  lemma MissingIs(t: Transfer)
    requires t.manifest.totalChunks >= 0
    ensures Missing(ProgressOf(t), t.manifest.totalChunks) == AllOf(t) - t.received
  {
  }

  /** After as many rounds of `Repair` as chunks are missing, none is. */
  lemma EnoughRounds(w: World, c: Config, p: Prompt, t: Transfer, id: bytes, k: nat)
    requires t.manifest.totalChunks >= 0 && Sendable(Limits(c, p), id, t.manifest.totalChunks)
    requires k >= |AllOf(t) - t.received|
    ensures AllOf(t) <= Expected(c, p, t, id, k).received
  {
    MissingIs(t);
    RepairConverges(Limits(c, p), id, ProgressOf(t), t.manifest.totalChunks, k);
    hide Rounds, Sendable, Limits, Missing, AllOf;
    var q := Rounds(Limits(c, p), id, ProgressOf(t), t.manifest.totalChunks, k);
    assert Missing(q, t.manifest.totalChunks) == {};
    assert Expected(c, p, t, id, k).received == q.received;
    NoneMissing(t, q);
  }

  lemma NoneMissing(t: Transfer, q: Progress)
    requires t.manifest.totalChunks >= 0 && Missing(q, t.manifest.totalChunks) == {}
    ensures AllOf(t) <= q.received
  {
    forall x | x in AllOf(t) ensures x in q.received {
      assert x !in Missing(q, t.manifest.totalChunks);
    }
  }

  lemma Covers(q: Receiver, id: bytes)
    requires id in q.transfers && q.transfers[id].received <= AllOf(q.transfers[id]) <= q.transfers[id].received
    ensures q.transfers[id].received == AllOf(q.transfers[id])
  {
  }

  /** Repair finishes a file, from as many rounds on as chunks were missing, if and only if nothing was missing, or the
      receiver may ask for chunks of it at all, every missing chunk fits a DATA frame that arrives, and so does every
      request on the way.  Then the part file is the source byte for byte, and a transfer that missed any has been queued for
      finalization. */
  lemma RepairFinishes(w: World, c: Config, p: Prompt, r: Receiver, now: Times, id: bytes, k: nat)
    requires Repairable(w, c, p, r, id) && Spaced(c, now) && id in r.transfers && Settled(r.transfers[id], now(0))
    requires k >= |AllOf(r.transfers[id]) - r.transfers[id].received|
    ensures var t, q := r.transfers[id], AfterRounds(w, c, p, r, now, id, k);
            && id in q.transfers
            && (q.transfers[id].received == AllOf(t)
                <==> t.received == AllOf(t)
                     || (Open(w, c, p, r, id) && MissingFit(w, r, id) && RequestsArrive(w, c, p, t, id)))
            && (q.transfers[id].received == AllOf(t) ==>
                  && t.part in q.parts && q.parts[t.part] == w.source(Sig(t))
                  && (t.received != AllOf(t) ==> q.transfers[id].finalized))
  {
    var t, q := r.transfers[id], AfterRounds(w, c, p, r, now, id, k);
    FinishesIff(w, c, p, r, now, id, k);
    RoundsKeep(w, c, p, r, now, id, k);
    RoundsSame(w, p, r, q, id, now(k));
    hide *;
    if q.transfers[id].received == AllOf(t) {
      FullIsSource(w, c, p, q, id);
      SameWhole(q.transfers[id], t);
      if t.received != AllOf(t) {
        FullIsFlagged(w, c, p, r, q, id, now(k));
      }
    }
  }

  lemma FinishesIff(w: World, c: Config, p: Prompt, r: Receiver, now: Times, id: bytes, k: nat)
    requires Repairable(w, c, p, r, id) && Spaced(c, now) && id in r.transfers && Settled(r.transfers[id], now(0))
    requires k >= |AllOf(r.transfers[id]) - r.transfers[id].received|
    ensures var t, q := r.transfers[id], AfterRounds(w, c, p, r, now, id, k);
            && id in q.transfers
            && (q.transfers[id].received == AllOf(t)
                <==> t.received == AllOf(t)
                     || (Open(w, c, p, r, id) && MissingFit(w, r, id) && RequestsArrive(w, c, p, t, id)))
  {
    var t, q := r.transfers[id], AfterRounds(w, c, p, r, now, id, k);
    RoundsKeep(w, c, p, r, now, id, k);
    RoundsSame(w, p, r, q, id, now(k));
    HeldInFile(w, c, p, q, id);
    hide Repairable, AfterRounds, RoundsOutcome, Fitting, AllOf, Open, GoesOn, Expected, Settled;
    if t.received == AllOf(t) {
      Covers(q, id);
    } else if !Open(w, c, p, r, id) {
      ClosedStays(w, c, p, r, now, id, k);
    } else if !MissingFit(w, r, id) {
      var i :| i in AllOf(t) - t.received && !Fitting(w, id, i);
      NeverAcross(w, c, p, r, now, id, k, i);
    } else if RequestsArrive(w, c, p, t, id) {
      AllGood(w, c, p, r, now, id, k);
    } else {
      var j: nat :| !GoesOn(w, c, p, Expected(c, p, t, id, j));
      OneFails(w, c, p, r, now, id, j, k);
    }
  }

  lemma HeldInFile(w: World, c: Config, p: Prompt, q: Receiver, id: bytes)
    requires Repairable(w, c, p, q, id)
    ensures id in q.transfers && q.transfers[id].received <= AllOf(q.transfers[id])
  {
    hide Right;
  }

  lemma FullIsFlagged(w: World, c: Config, p: Prompt, r: Receiver, q: Receiver, id: bytes, at: real)
    requires Repairable(w, c, p, r, id) && RoundsOutcome(w, p, r, q, id, at) && id in r.transfers && id in q.transfers
    requires q.transfers[id].received == AllOf(q.transfers[id]) && r.transfers[id].received != AllOf(r.transfers[id])
    ensures q.transfers[id].finalized && !r.transfers[id].finalized
  {
    NotYetFull(w, r, id);
    hide Ready, Right, AllOf, SameAnswer, QueuedWhenFull;
    FlagAtEnd(q, id);
  }

  lemma AllGood(w: World, c: Config, p: Prompt, r: Receiver, now: Times, id: bytes, k: nat)
    requires Repairable(w, c, p, r, id) && Spaced(c, now) && id in r.transfers && Settled(r.transfers[id], now(0))
    requires Open(w, c, p, r, id) && MissingFit(w, r, id) && RequestsArrive(w, c, p, r.transfers[id], id)
    requires k >= |AllOf(r.transfers[id]) - r.transfers[id].received|
    ensures var q := AfterRounds(w, c, p, r, now, id, k);
            id in q.transfers && q.transfers[id].received == AllOf(r.transfers[id])
  {
    var t, q := r.transfers[id], AfterRounds(w, c, p, r, now, id, k);
    RepairableHas(w, c, p, r, id);
    RoundsKeep(w, c, p, r, now, id, k);
    RoundsSame(w, p, r, q, id, now(k));
    hide Repairable, AfterRounds, Fitting, AllOf, Open, GoesOn, Expected, Settled, Sendable;
    assert ArriveBelow(w, c, p, t, id, k);
    RoundsAre(w, c, p, r, now, id, k);
    EnoughRounds(w, c, p, t, id, k);
    HeldInFile(w, c, p, q, id);
    Covers(q, id);
  }

  lemma OneFails(w: World, c: Config, p: Prompt, r: Receiver, now: Times, id: bytes, j: nat, k: nat)
    requires Repairable(w, c, p, r, id) && Spaced(c, now) && id in r.transfers && Settled(r.transfers[id], now(0))
    requires Open(w, c, p, r, id) && MissingFit(w, r, id) && !GoesOn(w, c, p, Expected(c, p, r.transfers[id], id, j))
    requires k >= |AllOf(r.transfers[id]) - r.transfers[id].received|
    ensures var q := AfterRounds(w, c, p, r, now, id, k);
            id in q.transfers && q.transfers[id].received != AllOf(r.transfers[id])
  {
    var t := r.transfers[id];
    RepairableHas(w, c, p, r, id);
    var i := FirstFailure(w, c, p, t, id, j);
    RoundsAre(w, c, p, r, now, id, i);
    RoundsKeep(w, c, p, r, now, id, i);
    var q := AfterRounds(w, c, p, r, now, id, i);
    RoundsSame(w, p, r, q, id, now(i));
    HeldInFile(w, c, p, q, id);
    ExpectedSame(c, p, t, id, i);
    hide Repairable, AfterRounds, Fitting, AllOf, Open, Expected, Settled, Sendable, RequestArrives;
    SameRequest(w, c, p, q.transfers[id], Expected(c, p, t, id, i));
    if i >= |AllOf(t) - t.received| {
      EnoughRounds(w, c, p, t, id, i);
      Covers(q, id);
      assert false;
    }
    Stuck(w, c, p, r, now, id, i, k);
  }

  lemma ExpectedSame(c: Config, p: Prompt, t: Transfer, id: bytes, k: nat)
    ensures Expected(c, p, t, id, k).manifest == t.manifest
  {
  }

  // ---------------------------------------------------------------- a file of which nothing has been received

  /** Nothing has been received, and no chunk has been seen. */
  predicate Fresh(t: Transfer)
  {
    t.received == {} && t.highest == -1
  }

  /** From nothing received, repair finishes the file if and only if it is empty, or the timer asks from the start, with a
      minimum of no chunks seen, and a request of one range arrives and so does every chunk: the chunk size, or the whole
      file, leaves room for the framing in the largest datagram that arrives.  METADATA never gets it begun. */
  lemma FreshRepairIff(w: World, c: Config, p: Prompt, r: Receiver, now: Times, id: bytes, k: nat)
    requires Repairable(w, c, p, r, id) && Spaced(c, now) && id in r.transfers && Settled(r.transfers[id], now(0))
    requires Fresh(r.transfers[id]) && k >= |AllOf(r.transfers[id])|
    ensures var t, q := r.transfers[id], AfterRounds(w, c, p, r, now, id, k);
            && id in q.transfers
            && (q.transfers[id].received == AllOf(t)
                <==> t.manifest.totalChunks == 0
                     || (p.Timer? && c.pacing.feedback && c.pacing.period > 0.0 && c.pacing.minSeen <= 0
                         && HEADER_SIZE + STATUS_FIXED + 8 <= Largest(w)
                         && (t.manifest.chunkSize <= Room(w) || t.manifest.fileSize <= Room(w))))
  {
    var t := r.transfers[id];
    FreshFacts(w, c, p, r, id);
    hide Repairable, AfterRounds, AllOf, MissingFit, RequestsArrive, Settled, Gap;
    FinishesIff(w, c, p, r, now, id, k);
    if t.received != AllOf(t) {
      FreshRequests(w, c, p, r, id);
      if HEADER_SIZE + STATUS_FIXED + 8 <= Largest(w) {
        AllFitIff(w, c, p, r, id);
      }
    }
  }

  /** Every chunk fits if and only if the chunk size does or the whole file does. */
  lemma AllFitIff(w: World, c: Config, p: Prompt, r: Receiver, id: bytes)
    requires Repairable(w, c, p, r, id) && r.transfers[id].received == {} && Room(w) >= 0
    ensures var m := r.transfers[id].manifest;
            MissingFit(w, r, id) <==> m.chunkSize <= Room(w) || m.fileSize <= Room(w)
  {
    var m := r.transfers[id].manifest;
    TotalNat(m);
    AllCarriedIff(Room(w), m.fileSize, m.chunkSize);
    hide Carried;
    assert forall i :: i in AllOf(r.transfers[id]) <==> 0 <= i < ExpectedChunks(m.fileSize, m.chunkSize);
    assert forall i :: Fitting(w, id, i) <==> Carried(Room(w), m.fileSize, m.chunkSize, i);
  }

  lemma FreshFacts(w: World, c: Config, p: Prompt, r: Receiver, id: bytes)
    requires Repairable(w, c, p, r, id) && id in r.transfers && Fresh(r.transfers[id])
    ensures var t := r.transfers[id];
            && AllOf(t) - t.received == AllOf(t) && (t.received == AllOf(t) <==> t.manifest.totalChunks == 0)
            && t.manifest.totalChunks >= 0
            && (Open(w, c, p, r, id)
                <==> p.Timer? && c.pacing.feedback && c.pacing.period > 0.0 && c.pacing.minSeen <= 0)
  {
    var t := r.transfers[id];
    RepairableHas(w, c, p, r, id);
    IntervalSize(0, t.manifest.totalChunks);
    hide Repairable, Unanswered;
    assert AllOf(t) - {} == AllOf(t);
  }

  /** From nothing received, every request is one range. */
  lemma FreshRequests(w: World, c: Config, p: Prompt, r: Receiver, id: bytes)
    requires Repairable(w, c, p, r, id) && id in r.transfers && Fresh(r.transfers[id])
    requires r.transfers[id].manifest.totalChunks > 0
    ensures RequestsArrive(w, c, p, r.transfers[id], id) <==> HEADER_SIZE + STATUS_FIXED + 8 <= Largest(w)
  {
    var t := r.transfers[id];
    RepairableHas(w, c, p, r, id);
    hide Repairable, Rounds, GoesOn, Limits;
    if HEADER_SIZE + STATUS_FIXED + 8 <= Largest(w) {
      forall j: nat ensures GoesOn(w, c, p, Expected(c, p, t, id, j)) {
        FreshRequest(w, c, p, t, id, j);
      }
    } else {
      FreshRequest(w, c, p, t, id, 0);
    }
  }

  lemma FreshRequest(w: World, c: Config, p: Prompt, t: Transfer, id: bytes, j: nat)
    requires t.manifest.totalChunks > 0 && Fresh(t) && Sendable(Limits(c, p), id, t.manifest.totalChunks)
    ensures HEADER_SIZE + STATUS_FIXED + 8 <= Largest(w) ==> GoesOn(w, c, p, Expected(c, p, t, id, j))
    ensures j == 0 && GoesOn(w, c, p, Expected(c, p, t, id, j)) ==> HEADER_SIZE + STATUS_FIXED + 8 <= Largest(w)
  {
    var total, u := t.manifest.totalChunks, Expected(c, p, t, id, j);
    assert AskedRanges(c, p, u) == Request(Limits(c, p), ProgressOf(u), total);
    FreshRanges(Limits(c, p), id, ProgressOf(t), total, j);
    assert j == 0 ==> u.received != AllOf(u) by {
      IntervalSize(0, total);
    }
    hide Limits, Request, AskedRanges, Rounds, AllOf, Sendable;
  }

  /** From nothing received, every request is one range, or none when nothing is missing any more. */
  lemma FreshRanges(l: RepairConfig, id: bytes, q: Progress, total: nat, j: nat)
    requires Sendable(l, id, total) && total > 0 && q.received == {}
    ensures var rs := Request(l, Rounds(l, id, q, total, j), total); |rs| <= 1 && (j == 0 ==> |rs| == 1)
  {
    hide Request, Round, RangesBelow;
    assert Missing(q, total) == Interval(0, total);
    assert 0 in Interval(0, total);
    var a := TailRounds(l, id, q, total, j);
    if a < total {
      var b := TailRequest(l, Rounds(l, id, q, total, j), total, a);
    } else {
      NothingAsked(l, Rounds(l, id, q, total, j), total);
    }
  }

  lemma NothingAsked(l: RepairConfig, q: Progress, total: nat)
    requires Missing(q, total) == Interval(total, total)
    ensures Request(l, q, total) == []
  {
    assert Missing(q, total) == {};
    NothingBelow(total);
    hide EffectiveBudget, LeadingHoleHeavy;
  }

  // ---------------------------------------------------------------- files that cannot be repaired

  /** The first chunk of a file that is longer than the room, in chunks that are: the encoder refuses it beyond 65535
      octets, below that its frame is lost, and no number of rounds brings it. */
  lemma LargeChunkNeverArrives(w: World, c: Config, p: Prompt, r: Receiver, now: Times, id: bytes, k: nat)
    requires Repairable(w, c, p, r, id) && Spaced(c, now) && id in r.transfers && Settled(r.transfers[id], now(0))
    requires 0 !in r.transfers[id].received
    requires var m := r.transfers[id].manifest; m.chunkSize > Room(w) && m.fileSize > Room(w) && m.fileSize > 0
    ensures var m := r.transfers[id].manifest;
            PassageOf(w, id, 0) == if m.chunkSize > MAX_PAYLOAD && m.fileSize > MAX_PAYLOAD then Fails else Lost
    ensures var q := AfterRounds(w, c, p, r, now, id, k);
            id in q.transfers && 0 !in q.transfers[id].received && q.transfers[id].received != AllOf(r.transfers[id])
  {
    var m := r.transfers[id].manifest;
    TotalNat(m);
    ChunkInside(m.fileSize, m.chunkSize, 0);
    Widths();
    assert 0 in AllOf(r.transfers[id]);
    PassageIs(w, id, [0], 0);
    assert [0][0] == 0;
    hide AfterRounds, Repairable, PassageOf, ChunksOf;
    NeverAcross(w, c, p, r, now, id, k, 0);
  }

  /** The timer never asks for chunks of a file that has fewer than the minimum of chunks seen, whichever of them are
      missing: no number of its rounds brings any. */
  lemma ShortFileIsNotAskedFor(w: World, c: Config, r: Receiver, now: Times, id: bytes, k: nat)
    requires Repairable(w, c, Timer, r, id) && Spaced(c, now) && id in r.transfers && Settled(r.transfers[id], now(0))
    requires r.transfers[id].highest < r.transfers[id].manifest.totalChunks < c.pacing.minSeen
    ensures var q := AfterRounds(w, c, Timer, r, now, id, k);
            id in q.transfers && ProgressOf(q.transfers[id]) == ProgressOf(r.transfers[id])
  {
    hide Repairable, AfterRounds, Settled;
    ClosedStays(w, c, Timer, r, now, id, k);
  }

  // ---------------------------------------------------------------- from repair to publication

  /** From any incomplete transfer that repair finishes, to the published file: after as many rounds as chunks were missing,
      the transfer is the next to finalize, its finalization publishes the source byte for byte at its destination, and the
      receiver answers COMPLETE. */
  lemma RepairPublishes(w: World, c: Config, p: Prompt, r: Receiver, now: Times, id: bytes, k: nat, fileTime: int, end: real)
    requires Repairable(w, c, p, r, id) && Spaced(c, now) && id in r.transfers && Settled(r.transfers[id], now(0))
    requires k >= |AllOf(r.transfers[id]) - r.transfers[id].received|
    requires Open(w, c, p, r, id) && MissingFit(w, r, id) && RequestsArrive(w, c, p, r.transfers[id], id)
    requires var t := r.transfers[id];
             t.received != AllOf(t) && w.host.sha(w.source(Sig(t))) == t.manifest.sha
    requires r.queue == []
    ensures PublishesNext(w, c, AfterRounds(w, c, p, r, now, id, k), r.transfers[id], id, fileTime, end)
  {
    var t := r.transfers[id];
    RepairFinishes(w, c, p, r, now, id, k);
    RoundsKeep(w, c, p, r, now, id, k);
    var q := AfterRounds(w, c, p, r, now, id, k);
    FullIsQueued(w, p, r, q, id, now(k));
    assert c.pacing.feedback;
    hide *;
    QueuedIsPublished(w, c, q, t, id, fileTime, end);
  }

  /** The transfer `t` is the next to finalize, and that publishes its source and answers COMPLETE. */
  ghost predicate PublishesNext(w: World, c: Config, q: Receiver, t: Transfer, id: bytes, fileTime: int, end: real)
  {
    && q.queue == [Job(t.part, [])] && id in q.transfers && q.transfers[id].part == t.part
    && var begun := FinalizeBegin(w.host, c, q, id, fileTime);
       && t.dest in begun.finals && begun.finals[t.dest].content == w.source(Sig(t))
       && begun.working.Some? && FinalizeEnd(c, begun, end).sent == [CompleteStatus(id)]
  }

  lemma FullIsQueued(w: World, p: Prompt, r: Receiver, q: Receiver, id: bytes, at: real)
    requires RoundsOutcome(w, p, r, q, id, at) && id in r.transfers && id in q.transfers
    requires Ready(w, r, id) && r.transfers[id].received != AllOf(r.transfers[id]) && q.transfers[id].finalized
    requires r.queue == []
    ensures var t, u := r.transfers[id], q.transfers[id];
            q.queue == [Job(t.part, [])] && u.part == t.part && u.dest == t.dest && u.manifest == t.manifest
  {
    NotYetFull(w, r, id);
    assert [] + [Job(r.transfers[id].part, [])] == [Job(r.transfers[id].part, [])];
    hide Ready, SameAnswer, FlagIsFull, AllOf;
  }

  lemma QueuedIsPublished(w: World, c: Config, q: Receiver, t: Transfer, id: bytes, fileTime: int, end: real)
    requires q.queue == [Job(t.part, [])] && id in q.transfers && c.pacing.feedback
    requires var u := q.transfers[id]; u.part == t.part && u.dest == t.dest && u.manifest == t.manifest
    requires t.part in q.parts && q.parts[t.part] == w.source(Sig(t)) && w.host.sha(w.source(Sig(t))) == t.manifest.sha
    ensures PublishesNext(w, c, q, t, id, fileTime, end)
  {
    hide JournalOf, MarkDone, WithoutIndex, SourceMtime;
  }

  /** A transfer that is full and not yet finalized, as a restart can leave it, is beyond the repair rounds, which find
      nothing to request; the stale check queues it, and its finalization publishes the source. */
  lemma RestoredFullPublishes(w: World, c: Config, r: Receiver, id: bytes, now: real, later: real, fileTime: int, end: real)
    requires Ready(w, r, id) && Right(w, r, id) && r.todo == [] && r.queue == [] && c.pacing.feedback
    requires var t := r.transfers[id];
             && t.received == AllOf(t) && !t.finalized && w.host.sha(w.source(Sig(t))) == t.manifest.sha
             && c.staleTimeout > 0.0 && now - t.lastActivity >= c.staleTimeout
    ensures var asked := StaleCheck(c, r, now, id);
            && asked.todo == [Queue(id, [])]
            && PublishesNext(w, c, RunTask(w.host, c, asked, later).state, r.transfers[id], id, fileTime, end)
  {
    var t := r.transfers[id];
    TotalNat(t.manifest);
    assert MissingOf(t) == [] by {
      assert Interval(0, t.manifest.totalChunks) - t.received == {};
      NothingBelow(t.manifest.totalChunks);
    }
    AllChunksIsSource(w, Sig(t), r.parts[t.part]);
    hide Ready, Right, AllOf, JournalOf, MissingOf, PublishesNext;
    assert [Queue(id, [])] + r.todo == [Queue(id, [])] && [] + [Job(t.part, [])] == [Job(t.part, [])];
    assert [Queue(id, [])][1..] == [];
    QueuedIsPublished(w, c, RunTask(w.host, c, StaleCheck(c, r, now, id), later).state, t, id, fileTime, end);
  }
}
