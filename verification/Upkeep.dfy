/** The upkeep of transfers: signs of life put off the stale check, and what the check does with a transfer that has shown none
    for too long. */
module Upkeep {
  import opened Bytes
  import opened Ranges
  import opened Frames
  import opened Repair
  import opened PreMetadata
  import opened Pacing
  import opened ReceiverModel
  import opened Safety
  import opened Invariant
  import opened InvariantSteps
  import opened Shapes
  import opened System
  import opened Announcements

  /** The transfer is not finalized and has shown no sign of life for the time allowed, if there is such a time. */
  predicate Stale(c: Config, r: Receiver, id: bytes, now: real)
  {
    && id in r.transfers && !r.transfers[id].finalized && c.staleTimeout > 0.0
    && now - r.transfers[id].lastActivity >= c.staleTimeout
  }

  /** The stale check finalizes a stale transfer that is full.  One that misses something it keeps, with everything received:
      its time begins anew, and a request that is still open no longer holds up the next.  It changes nothing else. */
  lemma StaleCheckIs(w: World, h: History, c: Config, r: Receiver, now: real, id: bytes)
    requires Inv(w, h, r)
    ensures var q := StaleCheck(c, r, now, id);
            if !Stale(c, r, id, now) then q == r
            else
              var t := r.transfers[id];
              if MissingSet(t) == {} then q == r.(todo := [Queue(id, [])] + r.todo)
              else
                && q == r.(transfers := q.transfers, dirty := true) && id in q.transfers
                && var u := q.transfers[id];
                   && q.transfers == r.transfers[id := u] && u == t.(lastActivity := now, pace := u.pace)
                   && u.pace == Pace(false, t.pace.receivedAtLast, 0, t.pace.last)
  {
    hide Inv, MissingOf, MissingSet;
    if Stale(c, r, id, now) {
      MissingIff(w, h, r, id);
    }
  }

  lemma MissingIff(w: World, h: History, r: Receiver, id: bytes)
    requires Inv(w, h, r) && id in r.transfers
    ensures MissingOf(r.transfers[id]) == [] <==> MissingSet(r.transfers[id]) == {}
  {
    InvAt(w, h, r, id);
    TotalNat(r.transfers[id].manifest);
    hide Inv, Holds, Published, MissingOf, MissingSet;
    MissingFacts(r.transfers[id]);
  }

  /** A beacon puts off the stale check of a transfer that is not finalized, and changes nothing else but the mark of the
      journal. */
  lemma BeaconIs(h: Host, c: Config, r: Receiver, now: real, raw: bytes, b: Beacon)
    requires Decode(raw) == Ok(BeaconMsg(b))
    ensures Handle(h, c, r, now, raw)
         == Outcome(if b.id !in r.transfers || r.transfers[b.id].finalized then r
                    else r.(transfers := r.transfers[b.id := r.transfers[b.id].(lastActivity := now)], dirty := true), [])
  {
    hide Decode;
  }

  /** What is neither METADATA, DATA nor a beacon, or does not decode, changes nothing. */
  lemma OthersAreIgnored(h: Host, c: Config, r: Receiver, now: real, raw: bytes)
    requires Decode(raw).Err? || Decode(raw).value.StatusMsg?
    ensures Handle(h, c, r, now, raw) == Outcome(r, [])
  {
    hide Decode;
  }

  /** For the time allowed after a beacon, the stale check leaves the transfer alone. */
  lemma BeaconPostpones(c: Config, r: Receiver, now: real, later: real, id: bytes)
    requires later - now < c.staleTimeout
    ensures var q := HandleBeacon(r, now, id); StaleCheck(c, q, later, id) == q
  {
    hide MissingOf, StaleReset;
  }

  /** So it does after a chunk has been accepted. */
  lemma DataPostpones(c: Config, r: Receiver, now: real, later: real, id: bytes, index: int, payload: bytes)
    requires later - now < c.staleTimeout && AcceptData(c, r, now, id, index, payload).transfers != r.transfers
    ensures var q := AcceptData(c, r, now, id, index, payload); StaleCheck(c, q, later, id) == q
  {
    AcceptShape(c, r, now, id, index, payload);
    hide AcceptData, MissingOf, StaleReset, PartWritten;
  }
}
