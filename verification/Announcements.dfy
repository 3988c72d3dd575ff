/** What METADATA leads to: the answer for a file that is there already, or the transfer it begins, repeats or resumes, with
    the chunks that came before it. */
module Announcements {
  import opened Bytes
  import opened Ranges
  import opened Frames
  import opened Repair
  import opened PreMetadata
  import opened Pacing
  import opened ReceiverModel
  import opened Safety
  import opened Invariant
  import opened InvariantSteps
  import opened Shapes
  import opened System
  import opened Runs

  // ---------------------------------------------------------------- a file that is there

  /** METADATA tells when the source was changed: eight octets under key 3. */
  ghost predicate TellsTime(m: Manifest)
  {
    Has(m.metadata, 3) && |Get(m.metadata, 3)| == 8
  }

  /** The file at the destination has the size, and the cache knows its hash for this size and time, or it has the time that
      METADATA tells, or METADATA tells none and the file has the hash. */
  ghost predicate IsThere(h: Host, r: Receiver, m: Manifest, dest: bytes)
  {
    dest in r.finals &&
    var f := r.finals[dest];
    && |f.content| == m.fileSize
    && (|| KnownBy(r, m, dest)
        || (TellsTime(m) && f.mtime == FromBE(Get(m.metadata, 3)))
        || (!TellsTime(m) && h.sha(f.content) == m.sha))
  }

  ghost predicate KnownBy(r: Receiver, m: Manifest, dest: bytes)
  {
    && dest in r.finals && dest in r.cache && r.cache[dest].size == |r.finals[dest].content|
    && r.cache[dest].mtime == r.finals[dest].mtime && r.cache[dest].sha == m.sha
  }

  /** METADATA for a file at an accepted destination: COMPLETE is sent exactly when feedback is on and the file is there, and
      otherwise the transfer is next to be registered.  A file found by its hash is remembered in the cache; the cache
      forgets a file that is gone.  Nothing else changes. */
  lemma AnsweredIff(h: Host, c: Config, r: Receiver, m: Manifest, dest: bytes)
    requires !(Has(m.metadata, 100) && m.name == QUERY_NAME) && h.dest(m.name) == Some(dest)
    ensures var o, there := HandleMetadata(h, c, r, m), IsThere(h, r, m, dest);
            && o.sent == (if there && c.pacing.feedback
                          then [StatusMsg(Status(m.id, TRANSFER, COMPLETE, [], None, None))] else [])
            && o.state.todo == (if there then r.todo else [Register(m)] + r.todo)
            && o.state == r.(cache := o.state.cache, todo := o.state.todo)
            && o.state.cache == (if dest !in r.finals then r.cache - {dest}
                                 else if there && !KnownBy(r, m, dest) && !TellsTime(m)
                                 then r.cache[dest := CacheEntry(m.fileSize, r.finals[dest].mtime, m.sha)] else r.cache)
  {
    hide FromBE;
  }

  /** A query for a file, and METADATA for a destination that is not accepted, change nothing and are not answered here. */
  lemma NotAnswered(h: Host, c: Config, r: Receiver, m: Manifest)
    requires (Has(m.metadata, 100) && m.name == QUERY_NAME) || h.dest(m.name).None?
    ensures HandleMetadata(h, c, r, m) == Outcome(r, [])
  {
  }

  /** The same as an event: METADATA that is delivered puts COMPLETE on the network, or is next to be registered. */
  lemma DeliveredIsAnswered(w: World, c: Config, s: Sys, raw: bytes, now: real, m: Manifest, dest: bytes)
    requires raw in s.net && Arrives(w, raw) && s.receiver.todo == [] && Decode(raw) == Ok(MetadataMsg(m))
    requires !(Has(m.metadata, 100) && m.name == QUERY_NAME) && w.host.dest(m.name) == Some(dest)
    ensures var t, there := Step(w, c, s, Deliver(raw, now)), IsThere(w.host, s.receiver, m, dest);
            && t.receiver.todo == (if there then [] else [Register(m)])
            && t.receiver == s.receiver.(cache := t.receiver.cache, todo := t.receiver.todo) && t.senders == s.senders
            && t.net == s.net + (if there && c.pacing.feedback
                                 then Datagrams([StatusMsg(Status(m.id, TRANSFER, COMPLETE, [], None, None))]) else {})
  {
    AnsweredIff(w.host, c, s.receiver, m, dest);
    var o := HandleMetadata(w.host, c, s.receiver, m);
    hide HandleMetadata, IsThere, Step, Arrives, Datagrams, Decode;
    HandledIs(w.host, c, s.receiver, raw, now, m);
    Delivers(w, c, s, raw, now, o.state, o.sent);
    NothingSent();
    assert [Register(m)] + [] == [Register(m)];
  }

  lemma HandledIs(h: Host, c: Config, r: Receiver, raw: bytes, now: real, m: Manifest)
    requires Decode(raw) == Ok(MetadataMsg(m))
    ensures Handle(h, c, r, now, raw) == HandleMetadata(h, c, r, m)
  {
    hide Decode, HandleMetadata;
  }

  lemma NothingSent()
    ensures Datagrams([]) == {}
  {
  }

  // ---------------------------------------------------------------- what is advertised

  /** The indexes of the file that the transfer misses. */
  ghost function MissingSet(t: Transfer): (s: set<int>)
  {
    Interval(0, t.manifest.totalChunks) - t.received
  }

  /** The list names the first of the missing indexes: all of them, or as many as the limit if there is one. */
  ghost predicate NamesFirst(l: seq<Range>, missing: set<int>, limit: int)
  {
    && Canonical(l) && Elems(l) <= missing
    && (limit <= 0 || |missing| <= limit ==> Elems(l) == missing)
    && (0 < limit < |missing| ==> |Elems(l)| == limit && forall x, y :: x in Elems(l) && y in missing - Elems(l) ==> x < y)
  }

  /** What is sent about a transfer whose METADATA has come: nothing without feedback, before any chunk, or within the quiet
      time of an incomplete one; otherwise COMPLETE when it is finalized and full, else INCOMPLETE with what is missing. */
  ghost predicate AdvertisedAs(c: Config, t: Transfer, now: real, sent: seq<Message>)
  {
    if !c.pacing.feedback || t.received == {}
       || (t.lastData > 0.0 && now - t.lastData < c.quiet && MissingSet(t) != {}) then sent == []
    else
      |sent| == 1 && sent[0].StatusMsg? &&
      var s := sent[0].status;
      && s.id == t.manifest.id && s.kind.TRANSFER? && s.info.None? && s.token.None?
      && s.state == (if t.done && MissingSet(t) == {} then COMPLETE else INCOMPLETE)
      && NamesFirst(s.missing, MissingSet(t), c.repair.maxChunks)
  }

  lemma MissingFacts(t: Transfer)
    requires t.manifest.totalChunks >= 0 && t.received <= AllOf(t)
    ensures MissingSet(t) == AllOf(t) - t.received
    ensures Canonical(MissingOf(t)) && Elems(MissingOf(t)) == MissingSet(t) && (MissingOf(t) == [] <==> MissingSet(t) == {})
    ensures |t.received| < t.manifest.totalChunks <==> MissingSet(t) != {}
    ensures |t.received| <= 0 <==> t.received == {}
  {
    var n := t.manifest.totalChunks;
    var p := Progress(t.received, t.highest);
    MissingRangesFacts(p, n);
    assert Missing(p, n) == AllOf(t) - t.received == MissingSet(t);
    IntervalSize(0, n);
    SubsetSize(t.received, AllOf(t));
    hide Canonical, Elems, RangesBelow;
  }

  lemma LimitedNamesFirst(c: RepairConfig, missing: seq<Range>)
    requires Canonical(missing)
    ensures NamesFirst(LimitMissing(c, missing), Elems(missing), c.maxChunks)
  {
    var l := LimitMissing(c, missing);
    ExpandMeaning(missing);
    LimitedMeaning(missing, c.maxChunks);
    ExpandMeaning(l);
    hide Limited, Expand, Elems;
    var xs, ys := Expand(missing), Expand(l);
    if 0 < c.maxChunks < |Elems(missing)| {
      assert ys == xs[..c.maxChunks];
      forall x, y | x in Elems(l) && y in Elems(missing) - Elems(l) ensures x < y {
        var i :| 0 <= i < |ys| && ys[i] == x;
        var j :| 0 <= j < |xs| && xs[j] == y;
        assert j >= c.maxChunks;
      }
    }
  }

  lemma AdvertisedIs(c: Config, t: Transfer, now: real)
    requires t.manifest.totalChunks >= 0 && t.received <= AllOf(t)
    ensures AdvertisedAs(c, t, now, AdvertiseState(c, t, now))
  {
    MissingFacts(t);
    LimitedNamesFirst(c.repair, MissingOf(t));
    hide MissingOf, LimitMissing, NamesFirst, Canonical, Elems, AllOf, MissingSet;
  }

  // ---------------------------------------------------------------- registration

  /** METADATA with an id that is registered changes nothing; its transfer is advertised. */
  ghost predicate Repeated(c: Config, r: Receiver, now: real, m: Manifest, o: Outcome)
  {
    m.id in r.transfers && o.state == r.(todo := []) && AdvertisedAs(c, r.transfers[m.id], now, o.sent)
  }

  /** METADATA of a transfer that goes on under a new id: the same object, with all that it has received, is registered under
      the new id instead, and advertised. */
  ghost predicate ResumedFrom(c: Config, r: Receiver, now: real, m: Manifest, o: Outcome, previous: bytes)
  {
    && m.id !in r.transfers && previous in r.transfers && Sig(r.transfers[previous]) == SignatureOf(m)
    && var u := r.transfers[previous].(manifest := m);
       && o.state == r.(transfers := (r.transfers - {previous})[m.id := u], index := o.state.index, dirty := true, todo := [])
       && AdvertisedAs(c, u, now, o.sent)
  }

  /** METADATA that begins a transfer: an object with nothing received is registered under its id, with a part file of the
      file's size, which is kept if there is one; the chunks that came before leave the buffer. */
  ghost predicate Begun(w: World, r: Receiver, now: real, m: Manifest, o: Outcome)
  {
    && m.id !in r.transfers && (forall id :: id in r.transfers ==> Sig(r.transfers[id]) != SignatureOf(m))
    && w.host.dest(m.name).Some? && o.sent == []
    && var q := o.state;
       && q == r.(transfers := r.transfers[m.id := FreshTransfer(m, w.host.dest(m.name).value, now)], index := q.index,
                  parts := q.parts, pre := q.pre, dirty := true, todo := q.todo)
       && m.id in q.parts && |q.parts[m.id]| == m.fileSize && q.parts == r.parts[m.id := q.parts[m.id]]
       && (m.id in r.parts ==> q.parts[m.id] == r.parts[m.id])
       && !Has(q.pre.pending, m.id)
       && (forall x :: x != m.id ==> Has(q.pre.pending, x) == Has(r.pre.pending, x))
       && (forall x :: x != m.id && Has(r.pre.pending, x) ==> Get(q.pre.pending, x) == Get(r.pre.pending, x))
       && FollowedBy(r, m, q.todo)
  }

  function FreshTransfer(m: Manifest, dest: bytes, now: real): (t: Transfer)
  {
    Transfer(m, m.id, dest, {}, -1, false, false, now, 0.0, Pace(false, 0, 0, 0.0))
  }

  /** What the main thread does next: an empty file is finalized; chunks that came before are replayed by increasing index,
      each of those held and no other, and then the transfer is advertised. */
  ghost predicate FollowedBy(r: Receiver, m: Manifest, todo: seq<Task>)
  {
    if m.totalChunks == 0 then todo == [Queue(m.id, [])]
    else if !Has(r.pre.pending, m.id) || Get(r.pre.pending, m.id).chunks == [] then todo == []
    else
      var held := Get(r.pre.pending, m.id).chunks;
      && |todo| == |held| + 1 && todo[|held|] == Advertise(m.id)
      && (forall k :: 0 <= k < |held| ==> todo[k].Replay? && todo[k].id == m.id)
      && (forall k :: 0 <= k < |held| ==> Entry(todo[k].index, todo[k].payload) in held)
      && (forall i, j :: 0 <= i < j < |held| ==> todo[i].index < todo[j].index)
  }

  lemma RepeatIs(w: World, h: History, c: Config, r: Receiver, now: real, m: Manifest)
    requires Inv(w, h, r.(todo := [])) && Honest(w, m) && m.id in r.transfers && w.host.dest(m.name).Some?
    ensures Repeated(c, r, now, m, RegisterTransfer(w.host, c, r.(todo := []), now, m))
  {
    var t := r.transfers[m.id];
    InvAt(w, h, r.(todo := []), m.id);
    TotalNat(t.manifest);
    assert Sig(t) == SignatureOf(m);
    hide Inv, TransferOk, Honest, AdvertiseState, AdvertisedAs, Holds, Published;
    AdvertisedIs(c, t, now);
  }

  lemma ResumeIs(w: World, h: History, c: Config, r: Receiver, now: real, m: Manifest, previous: bytes)
    requires Inv(w, h, r.(todo := [])) && Honest(w, m) && m.id !in r.transfers && w.host.dest(m.name).Some?
    requires previous in r.transfers && Sig(r.transfers[previous]) == SignatureOf(m)
    ensures ResumedFrom(c, r, now, m, RegisterTransfer(w.host, c, r.(todo := []), now, m), previous)
  {
    var t := r.transfers[previous];
    InvAt(w, h, r.(todo := []), previous);
    IndexHere(w, h, r.(todo := []));
    TotalNat(t.manifest);
    TotalNat(m);
    assert t.received <= AllOf(t) && AllOf(t) == AllOf(t.(manifest := m));
    hide Inv, TransferOk, Honest, AdvertiseState, AdvertisedAs, WithoutIndex, AllOf;
    AdvertisedIs(c, t.(manifest := m), now);
  }

  lemma BeginIs(w: World, h: History, c: Config, r: Receiver, now: real, m: Manifest)
    requires Inv(w, h, r.(todo := [])) && Honest(w, m) && m.id !in r.transfers && w.host.dest(m.name).Some?
    requires forall id :: id in r.transfers ==> Sig(r.transfers[id]) != SignatureOf(m)
    requires BufferOk(c.pre, r.pre)
    ensures Begun(w, r, now, m, RegisterTransfer(w.host, c, r.(todo := []), now, m))
  {
    hide Inv, Honest, RegisterTransfer, Drop, BufferOk, FollowedBy, IndexOk, NewTasks, Get, Has;
    BeginFacts(w, h, r, m);
    DropKeeps(c.pre, r.pre, m.id);
    NewIs(w.host, c, r, now, m, w.host.dest(m.name).value);
    Follows(c, r, m);
  }

  lemma BeginFacts(w: World, h: History, r: Receiver, m: Manifest)
    requires Inv(w, h, r.(todo := [])) && Honest(w, m)
    requires forall id :: id in r.transfers ==> Sig(r.transfers[id]) != SignatureOf(m)
    ensures SignatureOf(m) !in r.index && m.fileSize >= 0 && (m.id in r.parts ==> |r.parts[m.id]| == m.fileSize)
  {
    IndexHere(w, h, r.(todo := []));
    TotalNat(m);
    hide Inv;
  }

  /** Registering what is not known, in full. */
  lemma NewIs(h: Host, c: Config, r: Receiver, now: real, m: Manifest, dest: bytes)
    requires h.dest(m.name) == Some(dest) && m.id !in r.transfers && SignatureOf(m) !in r.index
    ensures RegisterTransfer(h, c, r.(todo := []), now, m)
         == Outcome(r.(transfers := r.transfers[m.id := FreshTransfer(m, dest, now)], index := r.index[SignatureOf(m) := m.id],
                       parts := if m.id in r.parts then r.parts else r.parts[m.id := Zeros(m.fileSize)],
                       pre := Drop(r.pre, m.id), dirty := true, todo := NewTasks(r, m)), [])
  {
    hide AdvertiseState, Popped, Drop, Zeros;
    assert NewTasks(r, m) + [] == NewTasks(r, m);
  }

  /** The tasks that registering a new transfer leaves. */
  function NewTasks(r: Receiver, m: Manifest): (todo: seq<Task>)
  {
    var buffered := Popped(r.pre, m.id);
    if m.totalChunks == 0 then [Queue(m.id, [])]
    else if buffered == [] then []
    else seq(|buffered|, k requires 0 <= k < |buffered| => Replay(m.id, buffered[k].key, buffered[k].value))
         + [Advertise(m.id)]
  }

  lemma Follows(c: Config, r: Receiver, m: Manifest)
    requires BufferOk(c.pre, r.pre)
    ensures FollowedBy(r, m, NewTasks(r, m))
  {
    if Has(r.pre.pending, m.id) {
      var held := Get(r.pre.pending, m.id).chunks;
      HasRecordOk(c.pre, r.pre, m.id);
      SortedByKeyIncreases(held, |held|);
      var buffered := Popped(r.pre, m.id);
      assert held[..|held|] == held;
      forall k | 0 <= k < |buffered| ensures buffered[k] in held {
        SortedByKeyMember(held, |held|, buffered[k]);
      }
      hide BufferOk, SortedByKey, Get, Has;
    }
  }

  /** The locked part of METADATA in any state that keeps the invariants: it repeats, resumes or begins a transfer, whichever
      the registered ids and signatures say. */
  lemma RegistrationIs(w: World, h: History, c: Config, r: Receiver, now: real, m: Manifest)
    requires Inv(w, h, r) && BufferOk(c.pre, r.pre) && r.todo == [Register(m)] && w.host.dest(m.name).Some?
    ensures var o := RunTask(w.host, c, r, now);
            if m.id in r.transfers then Repeated(c, r, now, m, o)
            else if exists id :: id in r.transfers && Sig(r.transfers[id]) == SignatureOf(m)
            then exists id :: ResumedFrom(c, r, now, m, o, id)
            else Begun(w, r, now, m, o)
  {
    var o := RunTask(w.host, c, r, now);
    HonestTask(w, h, r, m);
    RegisterTurn(w.host, c, r, now, m);
    hide RunTask, Inv, BufferOk, Repeated, ResumedFrom, Begun, RegisterTransfer, Honest;
    if m.id in r.transfers {
      RepeatIs(w, h, c, r, now, m);
    } else if previous :| previous in r.transfers && Sig(r.transfers[previous]) == SignatureOf(m) {
      ResumeIs(w, h, c, r, now, m, previous);
      assert ResumedFrom(c, r, now, m, o, previous);
    } else {
      BeginIs(w, h, c, r, now, m);
    }
  }

  lemma RegisterTurn(h: Host, c: Config, r: Receiver, now: real, m: Manifest)
    requires r.todo == [Register(m)]
    ensures RunTask(h, c, r, now) == RegisterTransfer(h, c, r.(todo := []), now, m)
  {
    hide RegisterTransfer;
    assert [Register(m)][1..] == [];
  }

  lemma HonestTask(w: World, h: History, r: Receiver, m: Manifest)
    requires Inv(w, h, r) && r.todo == [Register(m)]
    ensures Honest(w, m) && Inv(w, h, r.(todo := []))
  {
    hide IndexOk, TransfersOk, JournalOk, QueueOk, WorkingOk, FilesOk, PreOk, PartsOk, Honest;
    assert TaskOk(w, r.transfers, r.todo[0]);
  }

  lemma IndexHere(w: World, h: History, r: Receiver)
    requires Inv(w, h, r)
    ensures IndexOk(r.transfers, r.index) && PartsOk(w, r.parts)
  {
    hide IndexOk, TransfersOk, JournalOk, QueueOk, WorkingOk, FilesOk, PreOk, TodoOk;
  }

  // ---------------------------------------------------------------- in every run

  /** The buffer is as it was, or empty after a restart, or one of its own operations has been done. */
  ghost predicate BufferStep(c: PreConfig, s: Pre, t: Pre)
  {
    t == s || t == EMPTY || exists op :: t == Apply(c, s, op)
  }

  lemma AcceptBuffers(c: Config, r: Receiver, now: real, id: bytes, index: int, payload: bytes)
    ensures BufferStep(c.pre, r.pre, AcceptData(c, r, now, id, index, payload).pre)
  {
    hide Buffer, WritePart;
    assert Buffer(c.pre, r.pre, now, id, index, payload) == Apply(c.pre, r.pre, BufferOp(now, id, index, payload));
  }

  lemma RegisterBuffers(h: Host, c: Config, r: Receiver, now: real, m: Manifest)
    ensures BufferStep(c.pre, r.pre, RegisterTransfer(h, c, r, now, m).state.pre)
  {
    hide AdvertiseState, Popped, Drop, Zeros, WithoutIndex;
    assert Pop(r.pre, m.id) == Apply(c.pre, r.pre, PopOp(m.id));
    if h.dest(m.name).None? || m.id in r.transfers {
    } else if SignatureOf(m) in FoundIndex(r, SignatureOf(m)) {
    } else {
    }
  }

  lemma HandleBuffers(h: Host, c: Config, r: Receiver, now: real, raw: bytes)
    ensures BufferStep(c.pre, r.pre, Handle(h, c, r, now, raw).state.pre)
  {
    hide Decode, HandleMetadata, AcceptData, HandleBeacon, BufferStep;
    SameBuffer(c.pre, r.pre);
    match Decode(raw) {
      case Ok(MetadataMsg(m)) => MetadataShape(h, c, r, m);
      case Ok(DataMsg(d)) => AcceptBuffers(c, r, now, d.id, d.index, d.payload);
      case Ok(BeaconMsg(b)) => BeaconShape(r, now, b.id);
      case _ =>
    }
  }

  lemma SameBuffer(c: PreConfig, s: Pre)
    ensures BufferStep(c, s, s) && BufferStep(c, s, EMPTY)
  {
  }

  lemma TaskBuffers(h: Host, c: Config, r: Receiver, now: real)
    requires r.todo != []
    ensures BufferStep(c.pre, r.pre, RunTask(h, c, r, now).state.pre)
  {
    hide RegisterTransfer, AcceptData, QueueFinalization, AdvertiseState, BufferStep;
    SameBuffer(c.pre, r.pre);
    var rest := r.(todo := r.todo[1..]);
    match r.todo[0] {
      case Register(m) => RegisterBuffers(h, c, rest, now, m);
      case Replay(id, index, payload) => AcceptBuffers(c, rest, now, id, index, payload);
      case Queue(id, missing) => QueueingShape(c, rest, now, id, missing);
      case Advertise(id) =>
    }
  }

  lemma StepBuffers(w: World, c: Config, s: Sys, e: Event)
    requires Enabled(w, s, e)
    ensures BufferStep(c.pre, s.receiver.pre, ReceiverAfter(w, c, s, e).pre)
  {
    var r := s.receiver;
    SameBuffer(c.pre, r.pre);
    hide Handle, RunTask, RepairTick, StaleCheck, Flush, EvictExpired, FinalizeBegin, FinalizeEnd, BufferStep, Arrives, Honest,
         IndexOf, RestoredTransfers, JournalOf;
    match e {
      case Deliver(raw, now) => HandleBuffers(w.host, c, r, now, raw);
      case MainTask(now) => TaskBuffers(w.host, c, r, now);
      case RepairTimer(id, now) => RepairTickShape(c, r, now, id);
      case StaleTimer(id, now) => StaleShape(c, r, now, id);
      case FlushTimer(now) => FlushShape(c, r, now, false);
      case ExpireTimer(now) => ExpiryBuffers(c.pre, r.pre, now);
      case BeginFinalize(id, fileTime) => BeginningShape(w.host, c, r, id, fileTime);
      case EndFinalize(now) => EndingShape(c, r, now);
      case CrashRestart(now) => RestartBuffers(w.host, c, r, now);
      case _ =>
    }
  }

  lemma ExpiryBuffers(c: PreConfig, s: Pre, now: real)
    ensures BufferStep(c, s, EvictExpired(c, s, now))
  {
    hide EvictExpired;
    assert EvictExpired(c, s, now) == Apply(c, s, ExpireOp(now));
  }

  lemma RestartBuffers(h: Host, c: Config, r: Receiver, now: real)
    ensures Restart(h, c, r, now).pre == EMPTY
  {
    hide IndexOf, RestoredTransfers, JournalOf;
  }

  /** The buffer keeps its invariant, and with it the bounds on its memory, in every run of the system. */
  lemma {:induction false} RunBuffered(w: World, c: Config, s: Sys, events: seq<Event>, n: nat)
    requires Init(w, s) && n <= |events|
    ensures var p := Run(w, c, s, events, n).receiver.pre; BufferOk(c.pre, p) && |p.pending| <= Most(c.pre)
  {
    hide Step, Enabled, ReceiverAfter, BufferOk, Most, Apply;
    if n == 0 {
      EmptyOk(c.pre);
    } else {
      RunBuffered(w, c, s, events, n - 1);
      var u, e := Run(w, c, s, events, n - 1), events[n - 1];
      StepReceiver(w, c, u, e);
      if Enabled(w, u, e) {
        StepBuffers(w, c, u, e);
        BufferStepKeeps(c.pre, u.receiver.pre, Run(w, c, s, events, n).receiver.pre);
      }
    }
  }

  lemma BufferStepKeeps(c: PreConfig, s: Pre, t: Pre)
    requires BufferStep(c, s, t) && BufferOk(c, s) && |s.pending| <= Most(c)
    ensures BufferOk(c, t) && |t.pending| <= Most(c)
  {
    hide BufferOk, Most, Apply;
    EmptyOk(c);
    if t != s && t != EMPTY {
      var op :| t == Apply(c, s, op);
      ApplyKeeps(c, s, op);
    }
  }

  /** In every run, when the main thread comes to METADATA that it has to register, it repeats, resumes or begins a transfer. */
  lemma RegisteredInRun(w: World, c: Config, s: Sys, events: seq<Event>, n: nat, now: real, m: Manifest)
    requires Init(w, s) && n <= |events| && w.host.dest(m.name).Some?
    requires Run(w, c, s, events, n).receiver.todo == [Register(m)]
    ensures var u := Run(w, c, s, events, n);
            var r, t := u.receiver, Step(w, c, u, MainTask(now));
            exists sent ::
              var o := Outcome(t.receiver, sent);
              && t.net == u.net + Datagrams(sent)
              && if m.id in r.transfers then Repeated(c, r, now, m, o)
                 else if exists id :: id in r.transfers && Sig(r.transfers[id]) == SignatureOf(m)
                 then exists id :: ResumedFrom(c, r, now, m, o, id)
                 else Begun(w, r, now, m, o)
  {
    var u := Run(w, c, s, events, n);
    RunOk(w, c, s, events, n);
    RunBuffered(w, c, s, events, n);
    SysReceiver(w, u);
    RegistrationIs(w, u.history, c, u.receiver, now, m);
    Runs.Turns(w, c, u, now);
    var o := RunTask(w.host, c, u.receiver, now);
    hide *;
    hide Repeated, ResumedFrom, Begun;
    assert Outcome(Step(w, c, u, MainTask(now)).receiver, o.sent) == o;
  }
}
