/** One transfer object in whole runs of the system, between its creation or restore and its removal or a crash: what it
    goes through is a pace trace, so the periodic requests sent for it are paced, whatever else the run does; and it is
    queued for finalization at most once. */
module ObjectRuns {
  import opened Bytes
  import opened Ranges
  import opened Frames
  import opened Repair
  import opened PreMetadata
  import opened Pacing
  import opened ReceiverModel
  import opened Shapes
  import opened Safety
  import opened Invariant
  import opened InvariantSteps
  import opened System

  // ---------------------------------------------------------------- steps that leave the pacing fields alone

  /** The pacing fields are the same, at most one chunk was added, and a set flag stays set. */
  ghost predicate Calm(t: Transfer, u: Transfer)
  {
    u.pace == t.pace && (t.finalized ==> u.finalized) && (u.received == t.received || exists i :: OneMoreChunk(t, u, i))
  }

  predicate OneMoreChunk(t: Transfer, u: Transfer, i: int)
  {
    i !in t.received && u.received == t.received + {i}
  }

  /** Every object that is still registered, under whatever id, has gone through a calm step. */
  ghost predicate AllCalm(ts: Transfers, us: Transfers)
  {
    forall a, b :: a in ts && b in us && ts[a].part == us[b].part ==> Calm(ts[a], us[b])
  }

  ghost predicate Apart2(ts: Transfers)
  {
    forall a, b :: a in ts && b in ts && ts[a].part == ts[b].part ==> a == b
  }

  lemma CalmUpdate(ts: Transfers, id: bytes, u: Transfer)
    requires Apart2(ts) && id in ts && u.part == ts[id].part && Calm(ts[id], u)
    ensures AllCalm(ts, ts[id := u])
  {
  }

  lemma CalmSame(ts: Transfers)
    requires Apart2(ts)
    ensures AllCalm(ts, ts)
  {
  }

  lemma CalmMoved(ts: Transfers, previous: bytes, m: Manifest)
    requires Apart2(ts) && previous in ts && m.id !in ts
    ensures AllCalm(ts, Moved(ts, previous, m))
  {
  }

  lemma CalmNew(ts: Transfers, id: bytes, u: Transfer)
    requires Apart2(ts) && id !in ts && forall a :: a in ts ==> ts[a].part != u.part
    ensures AllCalm(ts, ts[id := u])
  {
  }

  lemma CalmDone(ts: Transfers, part: bytes, done: bool, id: bytes)
    requires Apart2(ts)
    ensures AllCalm(ts, MarkDone(ts, part, done) - {id})
  {
  }

  lemma CalmAccept(c: Config, r: Receiver, now: real, id: bytes, index: int, payload: bytes)
    requires Apart2(r.transfers)
    ensures AllCalm(r.transfers, AcceptData(c, r, now, id, index, payload).transfers)
  {
    AcceptShape(c, r, now, id, index, payload);
    CalmSame(r.transfers);
    hide AcceptData, AllCalm, Apart2;
    var q := AcceptData(c, r, now, id, index, payload);
    if q.transfers != r.transfers {
      var t, u := r.transfers[id], q.transfers[id];
      assert u.received == t.received || OneMoreChunk(t, u, index);
      CalmUpdate(r.transfers, id, u);
    }
  }

  lemma CalmQueue(c: Config, r: Receiver, now: real, id: bytes, missing: seq<Range>)
    requires Apart2(r.transfers)
    ensures AllCalm(r.transfers, QueueFinalization(c, r, now, id, missing).transfers)
  {
    QueueingShape(c, r, now, id, missing);
    CalmSame(r.transfers);
    hide QueueFinalization, AllCalm, Apart2;
    if id in r.transfers {
      CalmUpdate(r.transfers, id, r.transfers[id].(finalized := true));
    }
  }

  lemma CalmRegister(w: World, h: History, c: Config, r: Receiver, now: real, m: Manifest)
    requires Inv(w, h, r) && Honest(w, m)
    ensures AllCalm(r.transfers, RegisterTransfer(w.host, c, r, now, m).state.transfers)
  {
    DistinctParts(w, h, r);
    CalmSame(r.transfers);
    assert IndexOk(r.transfers, r.index);
    RegisterMap(w.host, c, r, now, m);
    hide RegisterTransfer, AllCalm, Calm, Apart2, IndexOk, Honest, Inv, Moved;
    var us, g := RegisterTransfer(w.host, c, r, now, m).state.transfers, SignatureOf(m);
    if us != r.transfers {
      if g in r.index {
        CalmMoved(r.transfers, r.index[g], m);
      } else {
        NewPart(w, h, r, m);
        NewHasId(w.host, c, r, now, m);
        CalmNew(r.transfers, m.id, us[m.id]);
      }
    }
  }

  /** The part file of a new transfer is named after its id. */
  lemma NewHasId(h: Host, c: Config, r: Receiver, now: real, m: Manifest)
    requires m.id !in r.transfers && SignatureOf(m) !in r.index
    ensures var us := RegisterTransfer(h, c, r, now, m).state.transfers; m.id in us ==> us[m.id].part == m.id
  {
    hide Popped, Pop, AdvertiseState, WithoutIndex, Zeros;
  }

  /** The part file of a new transfer is no registered transfer's. */
  lemma NewPart(w: World, h: History, r: Receiver, m: Manifest)
    requires Inv(w, h, r) && Honest(w, m) && SignatureOf(m) !in r.index
    ensures forall a :: a in r.transfers ==> r.transfers[a].part != m.id
  {
    forall a | a in r.transfers ensures r.transfers[a].part != m.id {
      OneTransfer(w, h, r.parts, r.transfers, a);
      assert Sig(r.transfers[a]) in r.index;
    }
  }

  lemma CalmTask(w: World, h: History, c: Config, r: Receiver, now: real)
    requires Inv(w, h, r) && r.todo != []
    ensures AllCalm(r.transfers, RunTask(w.host, c, r, now).state.transfers)
  {
    DistinctParts(w, h, r);
    if r.todo[0].Register? {
      RestOk(w, h, r);
      RegisterTaskHonest(w, h, r);
      hide AllCalm, Inv, RegisterTransfer, Apart2;
      CalmRegister(w, h, c, r.(todo := r.todo[1..]), now, r.todo[0].manifest);
    } else {
      CalmTurn(w.host, c, r, now);
    }
  }

  lemma CalmTurn(h: Host, c: Config, r: Receiver, now: real)
    requires Apart2(r.transfers) && r.todo != [] && !r.todo[0].Register?
    ensures AllCalm(r.transfers, RunTask(h, c, r, now).state.transfers)
  {
    var rest := r.(todo := r.todo[1..]);
    CalmSame(r.transfers);
    hide AllCalm, Apart2, AcceptData, QueueFinalization, AdvertiseState;
    match r.todo[0]
    case Replay(id, index, payload) => CalmAccept(c, rest, now, id, index, payload);
    case Queue(id, missing) => CalmQueue(c, rest, now, id, missing);
    case Advertise(id) =>
  }

  lemma RegisterTaskHonest(w: World, h: History, r: Receiver)
    requires Inv(w, h, r) && r.todo != []
    ensures r.todo[0].Register? ==> Honest(w, r.todo[0].manifest)
  {
    assert TaskOk(w, r.transfers, r.todo[0]);
  }

  lemma RestOk(w: World, h: History, r: Receiver)
    requires Inv(w, h, r) && r.todo != []
    ensures Inv(w, h, r.(todo := r.todo[1..]))
  {
    hide IndexOk, TransfersOk, JournalOk, QueueOk, PreOk, PartsOk, WorkingOk, FilesOk, TaskOk;
  }

  lemma CalmBeacon(r: Receiver, now: real, id: bytes)
    requires Apart2(r.transfers)
    ensures AllCalm(r.transfers, HandleBeacon(r, now, id).transfers)
  {
    CalmSame(r.transfers);
    if id in r.transfers {
      CalmUpdate(r.transfers, id, r.transfers[id].(lastActivity := now));
    }
    hide AllCalm, Calm;
  }

  lemma CalmDeliver(h: Host, c: Config, r: Receiver, raw: bytes, now: real)
    requires Apart2(r.transfers)
    ensures AllCalm(r.transfers, Handle(h, c, r, now, raw).state.transfers)
  {
    CalmSame(r.transfers);
    hide AllCalm, Apart2, Decode, AcceptData, HandleBeacon, HandleMetadata;
    match Decode(raw) {
      case Ok(MetadataMsg(m)) => MetadataShape(h, c, r, m);
      case Ok(DataMsg(d)) => CalmAccept(c, r, now, d.id, d.index, d.payload);
      case Ok(BeaconMsg(b)) => CalmBeacon(r, now, b.id);
      case _ =>
    }
  }

  /** Only the timers touch pacing fields of registered objects; a crash makes new objects. */
  lemma CalmStep(w: World, c: Config, s: Sys, e: Event)
    requires SysInv(w, s) && !e.RepairTimer? && !e.StaleTimer? && !e.CrashRestart?
    ensures AllCalm(s.receiver.transfers, Step(w, c, s, e).receiver.transfers)
  {
    StepReceiver(w, c, s, e);
    SysReceiver(w, s);
    DistinctParts(w, s.history, s.receiver);
    CalmSame(s.receiver.transfers);
    hide SysInv, Inv, Step, AllCalm, Enabled, ReceiverAfter;
    if OfSender(e) {
      SendersLeaveReceiver(w, c, s, e);
    } else if Enabled(w, s, e) {
      CalmAfter(w, c, s, e);
    }
  }

  lemma CalmAfter(w: World, c: Config, s: Sys, e: Event)
    requires Inv(w, s.history, s.receiver) && Apart2(s.receiver.transfers) && Enabled(w, s, e) && !OfSender(e)
    requires !e.RepairTimer? && !e.StaleTimer? && !e.CrashRestart?
    ensures AllCalm(s.receiver.transfers, ReceiverAfter(w, c, s, e).transfers)
  {
    var r := s.receiver;
    if e.MainTask? {
      CalmTask(w, s.history, c, r, e.now);
      hide AllCalm, RunTask;
    } else if e.EndFinalize? {
      CalmEnd(c, r, e.now);
      hide AllCalm, FinalizeEnd;
    } else {
      CalmRest(w, c, s, e);
    }
  }

  lemma CalmRest(w: World, c: Config, s: Sys, e: Event)
    requires Apart2(s.receiver.transfers) && Enabled(w, s, e)
    requires e.Deliver? || e.FlushTimer? || e.ExpireTimer? || e.BeginFinalize?
    ensures AllCalm(s.receiver.transfers, ReceiverAfter(w, c, s, e).transfers)
  {
    var r := s.receiver;
    CalmSame(r.transfers);
    hide AllCalm, Apart2, Handle, Flush, EvictExpired, FinalizeBegin;
    match e
    case Deliver(raw, now) => CalmDeliver(w.host, c, r, raw, now);
    case FlushTimer(now) => FlushShape(c, r, now, false);
    case BeginFinalize(id, fileTime) => BeginningShape(w.host, c, r, id, fileTime);
    case _ =>
  }

  lemma CalmEnd(c: Config, r: Receiver, now: real)
    requires Apart2(r.transfers) && r.working.Some?
    ensures AllCalm(r.transfers, FinalizeEnd(c, r, now).state.transfers)
  {
    var v := r.working.value;
    EndingShape(c, r, now);
    CalmDone(r.transfers, v.part, v.state.COMPLETE?, v.id);
    hide AllCalm, MarkDone, FinalizeEnd;
  }

  // ---------------------------------------------------------------- the trace of one object

  ghost predicate Registered(ts: Transfers, part: bytes)
  {
    exists id :: Mine(ts, id, part)
  }

  predicate Mine(ts: Transfers, id: bytes, part: bytes)
  {
    id in ts && ts[id].part == part
  }

  /** The registered object with that part file. */
  ghost function Object(ts: Transfers, part: bytes): (t: Transfer)
    requires Registered(ts, part)
  {
    var id :| Mine(ts, id, part); ts[id]
  }

  lemma ObjectIs(ts: Transfers, id: bytes, part: bytes)
    requires Apart2(ts) && Mine(ts, id, part)
    ensures Registered(ts, part) && Object(ts, part) == ts[id]
  {
  }

  /** What an event means for the pacing of the object with that part file. */
  ghost function PaceEventOf(c: Config, ts: Transfers, us: Transfers, e: Event, part: bytes): (p: Option<PaceEvent>)
    requires Registered(ts, part) && Registered(us, part)
  {
    var t, u := Object(ts, part), Object(us, part);
    match e
    case RepairTimer(id, now) =>
      if Mine(ts, id, part) && !t.done && !t.finalized then
        var limited := LimitForTransfer(c.repair, t.highest, MissingOf(t));
        Some(Tick(now, t.highest, Length(limited, |limited|)))
      else None
    case StaleTimer(id, now) => if u.pace != t.pace then Some(Stale(now)) else None
    case _ => if u.received != t.received then Some(NewChunk) else None
  }

  function TransfersAt(r: Sys): (ts: Transfers)
  {
    r.receiver.transfers
  }

  /** The object is registered in the first `n` states of the run, and no crash happens among its first `n` events. */
  ghost predicate Lives(w: World, c: Config, s: Sys, events: seq<Event>, part: bytes, n: nat)
    requires n <= |events|
  {
    && (forall k :: 0 <= k <= n ==> Registered(TransfersAt(Run(w, c, s, events, k)), part))
    && (forall k :: 0 <= k < n ==> !events[k].CrashRestart?)
  }

  /** The pace trace of the object: its fields, its chunk count, and the periodic requests sent for it. */
  ghost function TraceOf(w: World, c: Config, s: Sys, events: seq<Event>, part: bytes, start: real, n: nat): (t: PaceTrace)
    requires n <= |events| && Lives(w, c, s, events, part, n)
  {
    if n == 0 then PaceTrace(FRESH, |Object(TransfersAt(Run(w, c, s, events, 0)), part).received|, start, [])
    else
      var p := TraceOf(w, c, s, events, part, start, n - 1);
      Advanced(c, p, PaceEventOf(c, TransfersAt(Run(w, c, s, events, n - 1)), TransfersAt(Run(w, c, s, events, n)),
                                 events[n - 1], part))
  }

  function Advanced(c: Config, p: PaceTrace, x: Option<PaceEvent>): (q: PaceTrace)
  {
    if x.None? then p else PaceStep(c.pacing, p, x.value)
  }

  /** The clock is positive and the timers see it go forward. */
  ghost predicate Timely(w: World, c: Config, s: Sys, events: seq<Event>, part: bytes, start: real, n: nat)
    requires n <= |events| && Lives(w, c, s, events, part, n)
  {
    && 0.0 < start
    && forall k :: 0 <= k < n ==> OnTime(TraceOf(w, c, s, events, part, start, k), events[k])
  }

  predicate OnTime(t: PaceTrace, e: Event)
  {
    match e case RepairTimer(_, now) => t.clock <= now case StaleTimer(_, now) => t.clock <= now case _ => true
  }

  predicate Shows(p: PaceTrace, t: Transfer)
  {
    p.pace == t.pace && p.received == |t.received|
  }

  /** Changing the transfer of one id changes that object and no other. */
  lemma UpdatedObject(ts: Transfers, id: bytes, u: Transfer, part: bytes)
    requires Apart2(ts) && Registered(ts, part) && id in ts && u.part == ts[id].part
    ensures Registered(ts[id := u], part)
    ensures Object(ts[id := u], part) == if Mine(ts, id, part) then u else Object(ts, part)
    ensures Mine(ts, id, part) ==> Object(ts, part) == ts[id]
  {
    var a :| Mine(ts, a, part);
    ObjectIs(ts, a, part);
    assert Apart2(ts[id := u]) && Mine(ts[id := u], a, part);
    ObjectIs(ts[id := u], a, part);
  }

  /** What the repair timer does to an active transfer, and the pace event it is. */
  lemma TickIs(c: Config, r: Receiver, now: real, id: bytes, p: PaceTrace)
    requires id in r.transfers && !r.transfers[id].done && !r.transfers[id].finalized && Shows(p, r.transfers[id])
    ensures var o, t := RepairTick(c, r, now, id), r.transfers[id];
            var limited := LimitForTransfer(c.repair, t.highest, MissingOf(t));
            var q := PaceStep(c.pacing, p, Tick(now, t.highest, Length(limited, |limited|)));
            && o.state.transfers == r.transfers[id := t.(pace := q.pace)]
            && q.received == |t.received|
            && |q.sent| == |p.sent| + |o.sent| && (o.sent != [] ==> q.sent[|p.sent|].time == now)
  {
    hide Periodic, MissingOf, LimitForTransfer, RepairStatus;
  }

  lemma TickIsNothing(c: Config, r: Receiver, now: real, id: bytes)
    requires id !in r.transfers || r.transfers[id].done || r.transfers[id].finalized
    ensures RepairTick(c, r, now, id) == Outcome(r, [])
  {
  }

  lemma RepairStep(c: Config, r: Receiver, now: real, id: bytes, part: bytes, p: PaceTrace)
    requires Apart2(r.transfers) && Registered(r.transfers, part) && Shows(p, Object(r.transfers, part))
    ensures var us := RepairTick(c, r, now, id).state.transfers;
            && Registered(us, part)
            && Shows(Advanced(c, p, PaceEventOf(c, r.transfers, us, RepairTimer(id, now), part)), Object(us, part))
  {
    var ts, us := r.transfers, RepairTick(c, r, now, id).state.transfers;
    hide RepairTick, PaceStep, MissingOf, LimitForTransfer, Length, Object, Apart2, Registered;
    if id !in ts || ts[id].done || ts[id].finalized {
      TickIsNothing(c, r, now, id);
      if Mine(ts, id, part) {
        ObjectIs(ts, id, part);
      }
    } else {
      OtherTick(c, r, now, id);
      UpdatedObject(ts, id, us[id], part);
      if Mine(ts, id, part) {
        TickIs(c, r, now, id, p);
      }
    }
  }

  lemma OtherTick(c: Config, r: Receiver, now: real, id: bytes)
    requires id in r.transfers
    ensures var us := RepairTick(c, r, now, id).state.transfers;
            id in us && us == r.transfers[id := us[id]] && us[id].part == r.transfers[id].part
  {
    RepairTickShape(c, r, now, id);
    hide RepairTick;
    assert r.transfers == r.transfers[id := r.transfers[id]];
  }

  /** The trace counts exactly the STATUS frames that the timer sends for the object. */
  lemma RequestsAreTraced(c: Config, r: Receiver, now: real, id: bytes, part: bytes, p: PaceTrace)
    requires Apart2(r.transfers) && Mine(r.transfers, id, part) && Registered(r.transfers, part)
    requires Shows(p, Object(r.transfers, part))
    ensures var o := RepairTick(c, r, now, id);
            && Registered(o.state.transfers, part)
            && var q := Advanced(c, p, PaceEventOf(c, r.transfers, o.state.transfers, RepairTimer(id, now), part));
               |q.sent| == |p.sent| + |o.sent| && (o.sent != [] ==> q.sent[|p.sent|].time == now)
  {
    var ts, us := r.transfers, RepairTick(c, r, now, id).state.transfers;
    hide RepairTick, PaceStep, MissingOf, LimitForTransfer, Length, Object, Apart2, Registered;
    OtherTick(c, r, now, id);
    UpdatedObject(ts, id, us[id], part);
    if ts[id].done || ts[id].finalized {
      TickIsNothing(c, r, now, id);
    } else {
      TickIs(c, r, now, id, p);
    }
  }

  lemma StaleStep(c: Config, r: Receiver, now: real, id: bytes, part: bytes, p: PaceTrace)
    requires Apart2(r.transfers) && Registered(r.transfers, part) && Shows(p, Object(r.transfers, part))
    ensures var us := StaleCheck(c, r, now, id).transfers;
            && Registered(us, part)
            && Shows(Advanced(c, p, PaceEventOf(c, r.transfers, us, StaleTimer(id, now), part)), Object(us, part))
  {
    var ts, us := r.transfers, StaleCheck(c, r, now, id).transfers;
    StaleShape(c, r, now, id);
    StaleTransfer(c, r, now, id);
    hide StaleCheck, Object, Apart2, Registered;
    if id in ts {
      UpdatedObject(ts, id, us[id], part);
    }
  }

  /** What a stale check does to the transfer it is about. */
  lemma StaleTransfer(c: Config, r: Receiver, now: real, id: bytes)
    ensures var us := StaleCheck(c, r, now, id).transfers;
            || us == r.transfers
            || (id in r.transfers && id in us
                && us[id] == r.transfers[id].(lastActivity := now, pace := StaleReset(r.transfers[id].pace)))
  {
    hide MissingOf, StaleReset;
    if id in r.transfers && !r.transfers[id].finalized {
    } else {
    }
  }

  lemma CalmObject(c: Config, ts: Transfers, us: Transfers, e: Event, part: bytes, p: PaceTrace)
    requires AllCalm(ts, us) && Registered(ts, part) && Registered(us, part) && Shows(p, Object(ts, part))
    requires !e.RepairTimer? && !e.StaleTimer?
    ensures Shows(Advanced(c, p, PaceEventOf(c, ts, us, e, part)), Object(us, part))
  {
    var t, u := Object(ts, part), Object(us, part);
    assert Calm(t, u);
    hide AllCalm, Object, Registered;
    if u.received != t.received {
      var i :| OneMoreChunk(t, u, i);
    }
  }

  /** One event, seen from the object: its pacing fields and chunk count move as the pace event says. */
  lemma ObjectStep(w: World, c: Config, s: Sys, e: Event, part: bytes, p: PaceTrace)
    requires SysInv(w, s) && !e.CrashRestart?
    requires Registered(TransfersAt(s), part) && Registered(TransfersAt(Step(w, c, s, e)), part)
    requires Shows(p, Object(TransfersAt(s), part))
    ensures var us := TransfersAt(Step(w, c, s, e));
            Shows(Advanced(c, p, PaceEventOf(c, TransfersAt(s), us, e, part)), Object(us, part))
  {
    var r := s.receiver;
    SysReceiver(w, s);
    DistinctParts(w, s.history, r);
    hide SysInv, Inv, Object, PaceEventOf, Shows, Advanced, Registered;
    if e.RepairTimer? {
      RepairStep(c, r, e.now, e.id, part, p);
      hide RepairTick;
    } else if e.StaleTimer? {
      StaleStep(c, r, e.now, e.id, part, p);
      CalmSame(r.transfers);
      IdleTimer(c, r.transfers, e, part, p);
      hide StaleCheck;
    } else {
      CalmStep(w, c, s, e);
      hide Step, AllCalm;
      CalmObject(c, r.transfers, TransfersAt(Step(w, c, s, e)), e, part, p);
    }
  }

  /** A timer that changes nothing is no pace event. */
  lemma IdleTimer(c: Config, ts: Transfers, e: Event, part: bytes, p: PaceTrace)
    requires Registered(ts, part) && Shows(p, Object(ts, part)) && e.StaleTimer?
    ensures Shows(Advanced(c, p, PaceEventOf(c, ts, ts, e, part)), Object(ts, part))
  {
  }

  /** In a run, the object's pace trace agrees with its fields at every moment and is paced. */
  lemma {:induction false} ObjectIsPaced(w: World, c: Config, s: Sys, events: seq<Event>, part: bytes, start: real, n: nat)
    requires SysInv(w, s) && n <= |events| && Lives(w, c, s, events, part, n)
    requires Timely(w, c, s, events, part, start, n)
    requires Object(TransfersAt(Run(w, c, s, events, 0)), part).pace == FRESH
    ensures Registered(TransfersAt(Run(w, c, s, events, n)), part)
    ensures var t := TraceOf(w, c, s, events, part, start, n);
            Shows(t, Object(TransfersAt(Run(w, c, s, events, n)), part)) && PacedSoFar(c.pacing, start, t)
  {
    hide SysInv, Step, PacedSoFar, PaceStep, Object, PaceEventOf, Shows, Registered, OnTime, TransfersAt, Lives, Timely,
         Advanced;
    LivesNow(w, c, s, events, part, n);
    TimelyStart(w, c, s, events, part, start, n);
    if n == 0 {
      FreshIsPaced(w, c, s, events, part, start);
    } else {
      Shorter(w, c, s, events, part, start, n);
      ObjectIsPaced(w, c, s, events, part, start, n - 1);
      RunFromOk(w, c, s, events, n - 1);
      var u, e, p := Run(w, c, s, events, n - 1), events[n - 1], TraceOf(w, c, s, events, part, start, n - 1);
      assert Run(w, c, s, events, n) == Step(w, c, u, e);
      TraceStep(w, c, s, events, part, start, n);
      hide Run, TraceOf;
      ObjectStep(w, c, u, e, part, p);
      AdvancedIsPaced(c, start, p, TransfersAt(u), TransfersAt(Step(w, c, u, e)), e, part);
    }
  }

  lemma TimelyStart(w: World, c: Config, s: Sys, events: seq<Event>, part: bytes, start: real, n: nat)
    requires n <= |events| && Lives(w, c, s, events, part, n) && Timely(w, c, s, events, part, start, n)
    ensures 0.0 < start
  {
  }

  lemma TraceStep(w: World, c: Config, s: Sys, events: seq<Event>, part: bytes, start: real, n: nat)
    requires 0 < n <= |events| && Lives(w, c, s, events, part, n) && Lives(w, c, s, events, part, n - 1)
    requires Registered(TransfersAt(Run(w, c, s, events, n - 1)), part)
    requires Registered(TransfersAt(Run(w, c, s, events, n)), part)
    ensures TraceOf(w, c, s, events, part, start, n)
         == Advanced(c, TraceOf(w, c, s, events, part, start, n - 1),
                     PaceEventOf(c, TransfersAt(Run(w, c, s, events, n - 1)), TransfersAt(Run(w, c, s, events, n)),
                                 events[n - 1], part))
  {
    hide Run, Registered, Lives, Advanced, PaceEventOf, TransfersAt;
  }

  lemma FreshIsPaced(w: World, c: Config, s: Sys, events: seq<Event>, part: bytes, start: real)
    requires Lives(w, c, s, events, part, 0) && 0.0 < start
    requires Object(TransfersAt(Run(w, c, s, events, 0)), part).pace == FRESH
    ensures var t := TraceOf(w, c, s, events, part, start, 0);
            Shows(t, Object(TransfersAt(Run(w, c, s, events, 0)), part)) && PacedSoFar(c.pacing, start, t)
  {
  }

  lemma AdvancedIsPaced(c: Config, start: real, p: PaceTrace, ts: Transfers, us: Transfers, e: Event, part: bytes)
    requires PacedSoFar(c.pacing, start, p) && OnTime(p, e) && Registered(ts, part) && Registered(us, part)
    ensures PacedSoFar(c.pacing, start, Advanced(c, p, PaceEventOf(c, ts, us, e, part)))
  {
    var x := PaceEventOf(c, ts, us, e, part);
    if x.Some? {
      PaceStepKeeps(c.pacing, start, p, x.value);
    }
  }

  lemma LivesNow(w: World, c: Config, s: Sys, events: seq<Event>, part: bytes, n: nat)
    requires n <= |events| && Lives(w, c, s, events, part, n)
    ensures Registered(TransfersAt(Run(w, c, s, events, n)), part) && Lives(w, c, s, events, part, 0)
  {
    hide Run, Registered;
  }

  lemma Shorter(w: World, c: Config, s: Sys, events: seq<Event>, part: bytes, start: real, n: nat)
    requires 0 < n <= |events| && Lives(w, c, s, events, part, n) && Timely(w, c, s, events, part, start, n)
    ensures Lives(w, c, s, events, part, n - 1) && Timely(w, c, s, events, part, start, n - 1)
    ensures OnTime(TraceOf(w, c, s, events, part, start, n - 1), events[n - 1]) && !events[n - 1].CrashRestart?
    ensures Registered(TransfersAt(Run(w, c, s, events, n - 1)), part)
  {
    hide Run, OnTime, TraceOf, Registered;
  }

  lemma {:induction false} RunFromOk(w: World, c: Config, s: Sys, events: seq<Event>, n: nat)
    requires SysInv(w, s) && n <= |events|
    ensures SysInv(w, Run(w, c, s, events, n))
  {
    hide SysInv, Step;
    if n > 0 {
      RunFromOk(w, c, s, events, n - 1);
      StepOk(w, c, Run(w, c, s, events, n - 1), events[n - 1]);
    }
  }

  /** A tracker never holds more chunks than the file has. */
  lemma HeldIsBounded(w: World, r: Sys, part: bytes)
    requires SysInv(w, r) && Registered(TransfersAt(r), part)
    ensures var x := Object(TransfersAt(r), part); |x.received| <= x.manifest.totalChunks
  {
    SysReceiver(w, r);
    hide SysInv;
    var ts, x := TransfersAt(r), Object(TransfersAt(r), part);
    var id :| Mine(ts, id, part) && ts[id] == x;
    OneTransfer(w, r.history, r.receiver.parts, ts, id);
    TotalNat(x.manifest);
    IntervalSize(0, x.manifest.totalChunks);
    SubsetSize(x.received, AllOf(x));
  }

  /** Paced repair requests in whole runs: from the moment a transfer object exists (created or restored) until it is
      removed or the process dies, any two consecutive periodic requests sent for it are a period apart or have as many
      new chunks between them as the first named, and at most 1 + time / period + total_chunks are sent. */
  lemma PacedInEveryRun(w: World, c: Config, s: Sys, events: seq<Event>, part: bytes, start: real, n: nat)
    requires SysInv(w, s) && n <= |events| && Lives(w, c, s, events, part, n)
    requires Timely(w, c, s, events, part, start, n)
    requires Object(TransfersAt(Run(w, c, s, events, 0)), part).pace == FRESH
    ensures var t := TraceOf(w, c, s, events, part, start, n);
            forall i :: 0 <= i < |t.sent| - 1 ==> Apart(c.pacing, t.sent[i], t.sent[i + 1])
    ensures Registered(TransfersAt(Run(w, c, s, events, n)), part)
    ensures var t := TraceOf(w, c, s, events, part, start, n);
            var total := Object(TransfersAt(Run(w, c, s, events, n)), part).manifest.totalChunks;
            c.pacing.period > 0.0 ==> Lasting(|t.sent| - 1 - total, c.pacing.period) <= t.clock - start
  {
    hide *;
    ObjectIsPaced(w, c, s, events, part, start, n);
    RunFromOk(w, c, s, events, n);
    HeldIsBounded(w, Run(w, c, s, events, n), part);
    PacedFacts(c, start, TraceOf(w, c, s, events, part, start, n), Object(TransfersAt(Run(w, c, s, events, n)), part));
  }

  lemma PacedFacts(c: Config, start: real, t: PaceTrace, x: Transfer)
    requires PacedSoFar(c.pacing, start, t) && Shows(t, x) && |x.received| <= x.manifest.totalChunks
    ensures forall i :: 0 <= i < |t.sent| - 1 ==> Apart(c.pacing, t.sent[i], t.sent[i + 1])
    ensures c.pacing.period > 0.0 ==>
              Lasting(|t.sent| - 1 - x.manifest.totalChunks, c.pacing.period) <= t.clock - start
  {
    hide Lasting;
    if c.pacing.period > 0.0 {
      PacedIsBounded(c.pacing, start, t);
      Scale(|t.sent| - 1 - x.manifest.totalChunks, |t.sent| - 1 - t.received, c.pacing.period);
    }
  }

  // ---------------------------------------------------------------- queued at most once

  /** The event puts a finalization of the object into the queue. */
  ghost predicate Enqueues(w: World, c: Config, s: Sys, e: Event, part: bytes)
  {
    exists missing :: Step(w, c, s, e).receiver.queue == s.receiver.queue + [Job(part, missing)]
  }

  lemma FlagStays(w: World, c: Config, s: Sys, e: Event, part: bytes)
    requires SysInv(w, s) && !e.CrashRestart?
    requires Registered(TransfersAt(s), part) && Registered(TransfersAt(Step(w, c, s, e)), part)
    requires Object(TransfersAt(s), part).finalized
    ensures Object(TransfersAt(Step(w, c, s, e)), part).finalized
  {
    var r := s.receiver;
    SysReceiver(w, s);
    DistinctParts(w, s.history, r);
    hide SysInv, Inv, Registered, Object;
    if e.RepairTimer? || e.StaleTimer? {
      TimerKeepsFlag(c, r, e, part);
      hide RepairTick, StaleCheck;
    } else {
      CalmStep(w, c, s, e);
      hide Step;
      CalmFlag(r.transfers, TransfersAt(Step(w, c, s, e)), part);
    }
  }

  lemma CalmFlag(ts: Transfers, us: Transfers, part: bytes)
    requires AllCalm(ts, us) && Registered(ts, part) && Registered(us, part) && Object(ts, part).finalized
    ensures Object(us, part).finalized
  {
    assert Calm(Object(ts, part), Object(us, part));
  }

  lemma TimerKeepsFlag(c: Config, r: Receiver, e: Event, part: bytes)
    requires Apart2(r.transfers) && Registered(r.transfers, part) && (e.RepairTimer? || e.StaleTimer?)
    ensures var us := if e.RepairTimer? then RepairTick(c, r, e.now, e.id).state.transfers
                      else StaleCheck(c, r, e.now, e.id).transfers;
            Registered(us, part) && Object(us, part).finalized == Object(r.transfers, part).finalized
  {
    var ts := r.transfers;
    var us := if e.RepairTimer? then RepairTick(c, r, e.now, e.id).state.transfers
              else StaleCheck(c, r, e.now, e.id).transfers;
    hide Periodic, MissingOf, LimitForTransfer, RepairStatus, Object, Apart2, Registered;
    if e.id in ts {
      assert us == ts || us == ts[e.id := us[e.id]];
      UpdatedObject(ts, e.id, us[e.id], part);
    }
  }

  /** Some transfer with that part file is registered and not finalized. */
  ghost predicate Unflagged(ts: Transfers, part: bytes)
  {
    exists id :: Mine(ts, id, part) && !ts[id].finalized
  }

  ghost predicate Flagged(ts: Transfers, part: bytes)
  {
    exists id :: Mine(ts, id, part) && ts[id].finalized
  }

  /** Being queued means that the flag was not set before and is set after. */
  lemma EnqueueSetsFlag(w: World, c: Config, s: Sys, e: Event, part: bytes)
    ensures Enqueues(w, c, s, e, part) ==>
              Unflagged(TransfersAt(s), part) && Flagged(TransfersAt(Step(w, c, s, e)), part)
  {
    if Enqueues(w, c, s, e, part) {
      var r, q := s.receiver, Step(w, c, s, e).receiver;
      var missing :| q.queue == r.queue + [Job(part, missing)];
      assert |q.queue| == |r.queue| + 1;
      QueueGrowth(w, c, s, e);
      hide Step;
      QueueSetsFlag(c, r.(todo := r.todo[1..]), e.now, r.todo[0].id, r.todo[0].missing);
      assert q.queue[|r.queue|] == Job(part, missing);
    }
  }

  lemma QueueSetsFlag(c: Config, r: Receiver, now: real, id: bytes, missing: seq<Range>)
    ensures var q := QueueFinalization(c, r, now, id, missing);
            |q.queue| > |r.queue| ==>
              && id in r.transfers && q.queue[|r.queue|].part == r.transfers[id].part
              && Unflagged(r.transfers, r.transfers[id].part) && Flagged(q.transfers, r.transfers[id].part)
  {
    hide JournalOf;
    if id in r.transfers && !r.transfers[id].finalized {
      var q, part := QueueFinalization(c, r, now, id, missing), r.transfers[id].part;
      assert Mine(r.transfers, id, part) && Mine(q.transfers, id, part) && q.transfers[id].finalized;
    }
  }

  lemma RunTaskQueue(h: Host, c: Config, r: Receiver, now: real)
    requires r.todo != [] && !r.todo[0].Queue?
    ensures RunTask(h, c, r, now).state.queue == r.queue
  {
    var rest := r.(todo := r.todo[1..]);
    hide RegisterTransfer, AcceptData, AdvertiseState, OneOpen;
    match r.todo[0]
    case Register(m) => RegisterShape(h, c, rest, now, m);
    case Replay(id, index, payload) => AcceptShape(c, rest, now, id, index, payload);
    case Advertise(id) =>
  }

  lemma HandleQueue(h: Host, c: Config, r: Receiver, now: real, raw: bytes)
    ensures Handle(h, c, r, now, raw).state.queue == r.queue
  {
    hide Decode, AcceptData, HandleMetadata, HandleBeacon, OneOpen;
    match Decode(raw) {
      case Ok(MetadataMsg(m)) => MetadataShape(h, c, r, m);
      case Ok(DataMsg(d)) => AcceptShape(c, r, now, d.id, d.index, d.payload);
      case Ok(BeaconMsg(b)) => BeaconShape(r, now, b.id);
      case _ =>
    }
  }

  lemma RestartQueue(h: Host, c: Config, r: Receiver, now: real)
    ensures Restart(h, c, r, now).queue == []
  {
    hide JournalOf, RestoredTransfers, IndexOf;
  }

  /** The queue grows only when the main thread finalizes. */
  lemma QueueGrowth(w: World, c: Config, s: Sys, e: Event)
    requires |Step(w, c, s, e).receiver.queue| > |s.receiver.queue|
    ensures e.MainTask? && s.receiver.todo != [] && s.receiver.todo[0].Queue?
    ensures Step(w, c, s, e).receiver
         == QueueFinalization(c, s.receiver.(todo := s.receiver.todo[1..]), e.now, s.receiver.todo[0].id,
                              s.receiver.todo[0].missing)
  {
    var r := s.receiver;
    if e.MainTask? && r.todo != [] && r.todo[0].Queue? {
      hide QueueFinalization, Datagrams, Seen;
    } else {
      OtherQueues(w, c, s, e);
    }
  }

  lemma OtherQueues(w: World, c: Config, s: Sys, e: Event)
    requires !(e.MainTask? && s.receiver.todo != [] && s.receiver.todo[0].Queue?)
    ensures |Step(w, c, s, e).receiver.queue| <= |s.receiver.queue|
  {
    StepReceiver(w, c, s, e);
    var r := s.receiver;
    hide Step, Handle, RunTask, Flush, FinalizeBegin, FinalizeEnd, Restart, RepairTick, StaleCheck, EvictExpired, Honest,
         Arrives, OneOpen, MarkDone;
    if Enabled(w, s, e) {
      match e
      case Deliver(raw, now) => HandleQueue(w.host, c, r, now, raw);
      case MainTask(now) => RunTaskQueue(w.host, c, r, now);
      case RepairTimer(id, now) => RepairTickShape(c, r, now, id);
      case StaleTimer(id, now) => StaleShape(c, r, now, id);
      case FlushTimer(now) => FlushShape(c, r, now, false);
      case BeginFinalize(id, fileTime) => BeginningShape(w.host, c, r, id, fileTime);
      case EndFinalize(now) => EndingShape(c, r, now);
      case CrashRestart(now) => RestartQueue(w.host, c, r, now);
      case _ =>
    }
  }

  /** The flag of an object that lives stays set. */
  lemma {:induction false} FlagStaysInRun(w: World, c: Config, s: Sys, events: seq<Event>, part: bytes, n: nat)
    requires SysInv(w, s) && 1 <= n <= |events| && Lives(w, c, s, events, part, n)
    requires Registered(TransfersAt(Run(w, c, s, events, 1)), part)
    requires Object(TransfersAt(Run(w, c, s, events, 1)), part).finalized
    ensures Registered(TransfersAt(Run(w, c, s, events, n)), part)
    ensures Object(TransfersAt(Run(w, c, s, events, n)), part).finalized
  {
    hide SysInv, Step, Object, Registered, TransfersAt;
    if n > 1 {
      FlagStaysInRun(w, c, s, events, part, n - 1);
      RunFromOk(w, c, s, events, n - 1);
      LivesNow(w, c, s, events, part, n);
      assert !events[n - 1].CrashRestart?;
      assert Run(w, c, s, events, n) == Step(w, c, Run(w, c, s, events, n - 1), events[n - 1]);
      FlagStays(w, c, Run(w, c, s, events, n - 1), events[n - 1], part);
    }
  }

  /** The object with that part file is finalized and full, its part file is the source, and no journal record names it. */
  ghost predicate ReadyToFinalize(w: World, r: Receiver, id: bytes, part: bytes)
  {
    && Mine(r.transfers, id, part) && r.transfers[id].finalized && r.transfers[id].received == AllOf(r.transfers[id])
    && part in r.parts && r.parts[part] == w.source(Sig(r.transfers[id]))
    && forall a :: a in r.journal ==> r.journal[a].part != part
  }

  ghost predicate SomeReady(w: World, r: Receiver, part: bytes)
  {
    exists id :: ReadyToFinalize(w, r, id, part)
  }

  /** In every run, the event that queues a part file finds its object not finalized, and leaves it finalized and full, the
      part file equal to the source and no longer named by the journal on disk. */
  lemma QueuedAfterJournal(w: World, c: Config, s: Sys, events: seq<Event>, n: nat, part: bytes)
    requires Init(w, s) && n < |events| && Enqueues(w, c, Run(w, c, s, events, n), events[n], part)
    ensures Unflagged(TransfersAt(Run(w, c, s, events, n)), part)
    ensures SomeReady(w, Run(w, c, s, events, n + 1).receiver, part)
  {
    var u := Run(w, c, s, events, n);
    var v := Step(w, c, u, events[n]);
    assert Run(w, c, s, events, n + 1) == v;
    RunOk(w, c, s, events, n + 1);
    hide Run, Init, SysInv, Step;
    EnqueueSetsFlag(w, c, u, events[n], part);
    QueuedPart(u, v, part);
    var id :| Mine(TransfersAt(v), id, part) && TransfersAt(v)[id].finalized;
    SysReceiver(w, v);
    FlaggedIsReady(w, v.history, v.receiver, id);
  }

  lemma QueuedPart(u: Sys, v: Sys, part: bytes)
    requires exists missing :: v.receiver.queue == u.receiver.queue + [Job(part, missing)]
    ensures exists k :: 0 <= k < |v.receiver.queue| && v.receiver.queue[k].part == part
  {
    var missing :| v.receiver.queue == u.receiver.queue + [Job(part, missing)];
    assert v.receiver.queue[|u.receiver.queue|].part == part;
  }

  lemma FlaggedIsReady(w: World, h: History, r: Receiver, id: bytes)
    requires Inv(w, h, r) && id in r.transfers && r.transfers[id].finalized
    requires exists k :: 0 <= k < |r.queue| && r.queue[k].part == r.transfers[id].part
    ensures ReadyToFinalize(w, r, id, r.transfers[id].part)
  {
    var t := r.transfers[id];
    OneTransfer(w, h, r.parts, r.transfers, id);
    hide IndexOk, TransfersOk, QueueOk, PreOk, TodoOk, WorkingOk, FilesOk, PartsOk, RecordOk;
    assert t.part in r.parts by {
      PartQueued(w, r, t.part);
    }
    TotalNat(t.manifest);
    AllChunksIsSource(w, Sig(t), r.parts[t.part]);
  }

  lemma PartQueued(w: World, r: Receiver, part: bytes)
    requires QueueOk(r.transfers, r.parts, r.queue) && exists k :: 0 <= k < |r.queue| && r.queue[k].part == part
    ensures part in r.parts
  {
  }

  /** A transfer object is queued for finalization at most once: once it has been, no later event of a run in which it
      stays registered queues it again. */
  lemma QueuedAtMostOnce(w: World, c: Config, s: Sys, events: seq<Event>, part: bytes, n: nat)
    requires SysInv(w, s) && 1 <= n < |events| && Lives(w, c, s, events, part, n)
    requires Enqueues(w, c, s, events[0], part)
    ensures !Enqueues(w, c, Run(w, c, s, events, n), events[n], part)
  {
    hide Enqueues, SysInv, Step, Object, Registered, Lives;
    EnqueueSetsFlag(w, c, s, events[0], part);
    RunFromOk(w, c, s, events, 1);
    assert Run(w, c, s, events, 0) == s;
    assert Run(w, c, s, events, 1) == Step(w, c, s, events[0]);
    FlaggedObject(w, Run(w, c, s, events, 1), part);
    hide Run;
    FlagStaysInRun(w, c, s, events, part, n);
    RunFromOk(w, c, s, events, n);
    FlaggedObject(w, Run(w, c, s, events, n), part);
    EnqueueSetsFlag(w, c, Run(w, c, s, events, n), events[n], part);
  }

  lemma FlaggedObject(w: World, s: Sys, part: bytes)
    requires SysInv(w, s)
    ensures Flagged(TransfersAt(s), part) ==> Registered(TransfersAt(s), part) && Object(TransfersAt(s), part).finalized
    ensures Registered(TransfersAt(s), part) && Object(TransfersAt(s), part).finalized ==> !Unflagged(TransfersAt(s), part)
  {
    SysReceiver(w, s);
    DistinctParts(w, s.history, s.receiver);
    hide SysInv, Inv;
    forall id | Mine(TransfersAt(s), id, part)
      ensures Registered(TransfersAt(s), part) && Object(TransfersAt(s), part) == TransfersAt(s)[id]
    {
      ObjectIs(TransfersAt(s), id, part);
    }
  }
}
