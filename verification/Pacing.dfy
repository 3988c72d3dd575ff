/** The pacing of periodic repair requests (`receiver.py`: `_can_send_repair_request`,
    `_maybe_send_periodic_repair_request`, `_send_repair_request`, and the reset done for a stale transfer).

    Times are real numbers of seconds.  The early-release test of the source, received / requested >= 0.75 in floating
    point, is the integer test 4 * received >= 3 * requested, which agrees with it for counts below 2^32. */
module Pacing {

  datatype PacingConfig = PacingConfig(feedback: bool, period: real, minSeen: int, inflightTimeout: real)

  /** The pacing fields of a transfer. */
  datatype Pace = Pace(inFlight: bool, receivedAtLast: int, requestedAtLast: int, last: real)

  const FRESH := Pace(false, 0, 0, 0.0)

  // ---------------------------------------------------------------- the decision

  /** `_can_send_repair_request`: the answer and the fields it leaves. */
  function CanSend(c: PacingConfig, p: Pace, received: int, now: real): (r: (bool, Pace))
  {
    if !p.inFlight then (true, p)
    else
      var since := received - p.receivedAtLast;
      if p.requestedAtLast > 0 && since >= p.requestedAtLast then (true, p.(inFlight := false, last := 0.0))
      else if p.requestedAtLast > 0 && since > 0 && now - p.last >= c.period && 4 * since >= 3 * p.requestedAtLast
      then (true, p.(inFlight := false, last := 0.0))
      else if now - p.last < c.inflightTimeout then (false, p)
      else (true, p.(inFlight := false))
  }

  /** `_maybe_send_periodic_repair_request` for a request naming `requested` chunks (0 when none is missing): the fields
      it leaves and whether it sent. */
  function Periodic(c: PacingConfig, p: Pace, received: int, highest: int, requested: int, now: real): (r: (Pace, bool))
  {
    if !c.feedback || c.period <= 0.0 || highest + 1 < c.minSeen then (p, false)
    else
      var (ok, q) := CanSend(c, p, received, now);
      if !ok || (q.last > 0.0 && now - q.last < c.period) || requested <= 0 then (q, false)
      else (Pace(true, received, requested, now), true)
  }

  /** When the next request goes out after one at time `sent` that named `asked` chunks with `held` received: as soon as that
      many more have come, or, a period later at the earliest, when three quarters of them have or the time of waiting for
      them is over. */
  lemma NextRequestIff(c: PacingConfig, p: Pace, held: int, before: int, asked: int, sent: real, received: int, highest: int,
                       requested: int, now: real)
    requires Periodic(c, p, held, before, asked, sent).1 && sent > 0.0
    ensures var came, waited := received - held, now - sent;
            Periodic(c, Periodic(c, p, held, before, asked, sent).0, received, highest, requested, now).1
            <==> c.feedback && c.period > 0.0 && highest + 1 >= c.minSeen && requested > 0
                 && (came >= asked
                     || (waited >= c.period && ((came > 0 && 4 * came >= 3 * asked) || waited >= c.inflightTimeout)))
  {
  }

  /** A transfer that has not asked yet asks at the first tick at which it may and something is missing; so does one that has
      been found stale, once a period has passed since its last request. */
  lemma FirstRequestIff(c: PacingConfig, p: Pace, received: int, highest: int, requested: int, now: real)
    requires !p.inFlight
    ensures Periodic(c, p, received, highest, requested, now).1
       <==> c.feedback && c.period > 0.0 && highest + 1 >= c.minSeen && requested > 0
            && (p.last <= 0.0 || now - p.last >= c.period)
  {
  }

  lemma StaleMayAsk(c: PacingConfig, p: Pace, received: int, highest: int, requested: int, now: real)
    ensures Periodic(c, StaleReset(p), received, highest, requested, now).1
       <==> c.feedback && c.period > 0.0 && highest + 1 >= c.minSeen && requested > 0
            && (p.last <= 0.0 || now - p.last >= c.period)
  {
  }

  /** What a stale incomplete transfer is left with. */
  function StaleReset(p: Pace): (r: Pace)
  {
    p.(inFlight := false, requestedAtLast := 0)
  }

  // ---------------------------------------------------------------- runs

  datatype PaceEvent = NewChunk | Tick(now: real, highest: int, requested: int) | Stale(now: real)

  /** A request as it went out: when, with how many chunks held, naming how many. */
  datatype Sent = Sent(time: real, received: int, requested: int)

  datatype PaceTrace = PaceTrace(pace: Pace, received: int, clock: real, sent: seq<Sent>)

  function PaceStep(c: PacingConfig, t: PaceTrace, e: PaceEvent): (r: PaceTrace)
  {
    match e
    case NewChunk => t.(received := t.received + 1)
    case Stale(now) => t.(pace := StaleReset(t.pace), clock := now)
    case Tick(now, highest, requested) =>
      var (pace, sends) := Periodic(c, t.pace, t.received, highest, requested, now);
      PaceTrace(pace, t.received, now, if sends then t.sent + [Sent(now, t.received, requested)] else t.sent)
  }

  function PaceRun(c: PacingConfig, start: real, events: seq<PaceEvent>, n: nat): (t: PaceTrace)
    requires n <= |events|
  {
    if n == 0 then PaceTrace(FRESH, 0, start, []) else PaceStep(c, PaceRun(c, start, events, n - 1), events[n - 1])
  }

  predicate InOrder(t: PaceTrace, e: PaceEvent)
  {
    match e case NewChunk => true case Tick(now, _, _) => t.clock <= now case Stale(now) => t.clock <= now
  }

  /** The clock is positive and never goes back. */
  ghost predicate Monotone(c: PacingConfig, start: real, events: seq<PaceEvent>)
  {
    0.0 < start && forall k :: 0 <= k < |events| ==> InOrder(PaceRun(c, start, events, k), events[k])
  }

  /** Two requests are apart: by a period, or by as many new chunks as the first named. */
  predicate Apart(c: PacingConfig, a: Sent, b: Sent)
  {
    b.time - a.time >= c.period || b.received - a.received >= a.requested
  }

  predicate SentOk(start: real, t: PaceTrace, s: Sent)
  {
    start <= s.time <= t.clock && s.requested > 0 && 0 <= s.received <= t.received
  }

  ghost predicate PacedSoFar(c: PacingConfig, start: real, t: PaceTrace)
  {
    && 0.0 < start <= t.clock && 0 <= t.received
    && (forall i :: 0 <= i < |t.sent| ==> SentOk(start, t, t.sent[i]))
    && (forall i, j :: 0 <= i && j == i + 1 && j < |t.sent| ==> Apart(c, t.sent[i], t.sent[j]))
    && (forall i, j :: 0 <= i < j < |t.sent| ==>
          t.sent[i].time <= t.sent[j].time && t.sent[i].received <= t.sent[j].received)
    && (t.sent == [] ==> t.pace == FRESH)
    && (t.sent != [] ==> Linked(c, t))
  }

  /** How the pacing fields remember the last request. */
  ghost predicate Linked(c: PacingConfig, t: PaceTrace)
    requires t.sent != []
  {
    var s := t.sent[|t.sent| - 1];
    && (t.pace.last == s.time || (t.pace.last == 0.0 && Apart(c, s, Sent(t.clock, t.received, 0))))
    && (t.pace.inFlight ==> t.pace == Pace(true, s.received, s.requested, s.time))
  }

  lemma PaceStepKeeps(c: PacingConfig, start: real, t: PaceTrace, e: PaceEvent)
    requires PacedSoFar(c, start, t) && InOrder(t, e)
    ensures PacedSoFar(c, start, PaceStep(c, t, e))
  {
    var r := PaceStep(c, t, e);
    if t.sent != [] {
      var s := t.sent[|t.sent| - 1];
      if e.Tick? && r.sent != t.sent {
        assert Apart(c, s, Sent(e.now, t.received, e.requested));
      }
    }
    forall i, j | 0 <= i && j == i + 1 && j < |r.sent| ensures Apart(c, r.sent[i], r.sent[j]) {
      if j < |t.sent| {
        assert Apart(c, t.sent[i], t.sent[j]);
      }
    }
  }

  lemma {:induction false} PaceRunKeeps(c: PacingConfig, start: real, events: seq<PaceEvent>, n: nat)
    requires Monotone(c, start, events) && n <= |events|
    ensures PacedSoFar(c, start, PaceRun(c, start, events, n))
  {
    if n > 0 {
      PaceRunKeeps(c, start, events, n - 1);
      hide PacedSoFar, PaceStep;
      PaceStepKeeps(c, start, PaceRun(c, start, events, n - 1), events[n - 1]);
    }
  }

  /** Any two consecutive requests of a run are a period apart, or at least as many new chunks as the first named arrived
      between them. */
  lemma RequestsArePaced(c: PacingConfig, start: real, events: seq<PaceEvent>, i: nat)
    requires Monotone(c, start, events)
    requires i + 1 < |PaceRun(c, start, events, |events|).sent|
    ensures var sent := PaceRun(c, start, events, |events|).sent;
            && Apart(c, sent[i], sent[i + 1]) && sent[i].requested > 0
            && sent[i].received <= PaceRun(c, start, events, |events|).received
  {
    PaceRunKeeps(c, start, events, |events|);
  }

  /** The duration of `n` periods. */
  function Lasting(n: int, period: real): (d: real)
  {
    n as real * period
  }

  lemma {:induction false} PacedCount(c: PacingConfig, sent: seq<Sent>, n: nat)
    requires 0 < n <= |sent| && c.period > 0.0
    requires forall i, j :: 0 <= i && j == i + 1 && j < |sent| ==> Apart(c, sent[i], sent[j])
    requires forall i :: 0 <= i < |sent| ==> sent[i].requested > 0 && 0 <= sent[i].received
    requires forall i, j :: 0 <= i < j < |sent| ==> sent[i].time <= sent[j].time && sent[i].received <= sent[j].received
    ensures Lasting(n - 1 - sent[n - 1].received, c.period) <= sent[n - 1].time - sent[0].time
  {
    hide Lasting;
    if n == 1 {
      Scale(0 - sent[0].received, 0, c.period);
    } else {
      PacedCount(c, sent, n - 1);
      var a, b := sent[n - 2], sent[n - 1];
      assert Apart(c, a, b) && a.requested > 0 && a.received <= b.received && a.time <= b.time;
      if b.received - a.received >= a.requested {
        Scale(n - 1 - b.received, n - 2 - a.received, c.period);
      } else {
        Scale(n - 1 - b.received, n - 2 - a.received + 1, c.period);
        OneMore(n - 2 - a.received, c.period);
      }
    }
  }

  lemma ScaleReal(x: real, y: real, p: real)
    requires x <= y && p > 0.0
    ensures x * p <= y * p
  {
    assert (y - x) * p >= 0.0;
  }

  lemma Scale(x: int, y: int, p: real)
    requires x <= y && p > 0.0
    ensures Lasting(x, p) <= Lasting(y, p)
    ensures Lasting(0, p) == 0.0
  {
    ScaleReal(x as real, y as real, p);
  }

  lemma OneMore(x: int, p: real)
    ensures Lasting(x + 1, p) == Lasting(x, p) + p
  {
    assert (x + 1) as real == x as real + 1.0;
  }

  /** A paced trace of length `d` that has received `r` chunks has sent at most 1 + d / period + r requests. */
  lemma PacedIsBounded(c: PacingConfig, start: real, t: PaceTrace)
    requires PacedSoFar(c, start, t) && c.period > 0.0
    ensures Lasting(|t.sent| - 1 - t.received, c.period) <= t.clock - start
  {
    hide Lasting;
    if t.sent == [] {
      Scale(-1 - t.received, 0, c.period);
    } else {
      PacedCount(c, t.sent, |t.sent|);
      Scale(|t.sent| - 1 - t.received, |t.sent| - 1 - t.sent[|t.sent| - 1].received, c.period);
    }
  }

  /** A run of length `d` that receives `r` chunks sends at most 1 + d / period + r requests. */
  lemma RequestsAreBounded(c: PacingConfig, start: real, events: seq<PaceEvent>)
    requires Monotone(c, start, events) && c.period > 0.0
    ensures var t := PaceRun(c, start, events, |events|);
            Lasting(|t.sent| - 1 - t.received, c.period) <= t.clock - start
  {
    PaceRunKeeps(c, start, events, |events|);
    PacedIsBounded(c, start, PaceRun(c, start, events, |events|));
  }
}
