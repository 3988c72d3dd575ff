/** The chunks that a request names on their way back: each goes out in a DATA frame, and each that arrives is accepted.  A
    chunk that the encoder refuses ends the servicing with its error, and a frame that is longer than the network or a read
    takes is lost. */
module RepairDelivery {
  import opened Bytes
  import opened Ranges
  import opened Frames
  import opened Repair
  import opened PreMetadata
  import opened Pacing
  import opened ReceiverModel
  import opened Safety
  import opened Invariant
  import opened Delivery

  // ---------------------------------------------------------------- chunks across the network

  /** The payload of a chunk, read from the source. */
  ghost function PayloadOf(w: World, id: bytes, x: int): (payload: bytes)
  {
    var g := w.sigOf(id);
    if g.chunkSize > 0 && x >= 0 then ChunkOf(w.source(g), g.chunkSize, x) else []
  }

  ghost function Payloads(w: World, id: bytes, xs: seq<int>): (d: Chunks)
    ensures |d| == |xs|
  {
    seq(|xs|, k requires 0 <= k < |xs| => Entry(xs[k], PayloadOf(w, id, xs[k])))
  }

  /** What becomes of a chunk that is serviced: the encoder refuses it, its frame does not arrive whole, or it comes. */
  datatype Passage = Fails | Lost | Comes(entry: Entry<int, bytes>)

  /** A chunk encoded into a datagram and decoded from it. */
  function Carry(w: World, id: bytes, index: int, payload: bytes): (p: Passage)
  {
    var raw := Encode(DataMsg(Chunk(id, index, payload)));
    if raw.Err? then Fails
    else if !Arrives(w, raw.value) then Lost
    else
      match Decode(raw.value)
      case Ok(DataMsg(d)) => Comes(Entry(d.index, d.payload))
      case _ => Lost
  }

  ghost function PassageOf(w: World, id: bytes, x: int): (p: Passage)
  {
    Carry(w, id, x, PayloadOf(w, id, x))
  }

  /** None of the first `n` chunks of a list is refused: the servicing comes as far as that. */
  ghost predicate Goes(w: World, id: bytes, xs: seq<int>, n: nat)
    requires n <= |xs|
  {
    forall k :: 0 <= k < n ==> !PassageOf(w, id, xs[k]).Fails?
  }

  /** What arrives of the first `n` chunks of a list. */
  ghost function Across(w: World, id: bytes, xs: seq<int>, n: nat): (d: Chunks)
    requires n <= |xs|
  {
    if n == 0 then []
    else
      var p := PassageOf(w, id, xs[n - 1]);
      Across(w, id, xs, n - 1) + (if Goes(w, id, xs, n - 1) && p.Comes? then [p.entry] else [])
  }

  /** Chunk `i` of the transfer's file fits a DATA frame that arrives. */
  ghost predicate Fitting(w: World, id: bytes, i: int)
  {
    Carried(Room(w), w.sigOf(id).size, w.sigOf(id).chunkSize, i)
  }

  /** Chunk `i` of the transfer's file is accepted by the encoder. */
  ghost predicate Unrefused(w: World, id: bytes, i: int)
  {
    Carried(MAX_PAYLOAD, w.sigOf(id).size, w.sigOf(id).chunkSize, i)
  }

  /** The indexes of a list are chunks of the transfer's file. */
  ghost predicate ChunksOf(w: World, id: bytes, xs: seq<int>)
  {
    var g := w.sigOf(id);
    && |id| == ID_SIZE && g.chunkSize > 0 && |w.source(g)| == g.size && Fits(ExpectedChunks(g.size, g.chunkSize), 4)
    && forall k :: 0 <= k < |xs| ==> 0 <= xs[k] < ExpectedChunks(g.size, g.chunkSize)
  }

  /** A chunk is refused beyond 65535 octets, and lost beyond what a frame that arrives has room for. */
  lemma PassageIs(w: World, id: bytes, xs: seq<int>, k: nat)
    requires ChunksOf(w, id, xs) && k < |xs|
    ensures PassageOf(w, id, xs[k])
         == if !Unrefused(w, id, xs[k]) then Fails
            else if !Fitting(w, id, xs[k]) then Lost else Comes(Entry(xs[k], PayloadOf(w, id, xs[k])))
    ensures Fitting(w, id, xs[k]) ==> Unrefused(w, id, xs[k])
  {
    var payload := PayloadOf(w, id, xs[k]);
    assert HonestChunk(w, id, xs[k], payload);
    Widths();
    EncodesIfCarried(w, id, xs[k], payload);
    hide Encode, Decode, HonestChunk, PayloadOf, Arrives;
  }

  /** The indexes of the chunks that arrive of the first `n`. */
  ghost function Coming(w: World, id: bytes, xs: seq<int>, n: nat): (ys: seq<int>)
    requires n <= |xs|
  {
    if n == 0 then []
    else
      Coming(w, id, xs, n - 1) + (if Goes(w, id, xs, n - 1) && Fitting(w, id, xs[n - 1]) then [xs[n - 1]] else [])
  }

  lemma {:induction false} AcrossIs(w: World, id: bytes, xs: seq<int>, n: nat)
    requires ChunksOf(w, id, xs) && n <= |xs|
    ensures Across(w, id, xs, n) == Payloads(w, id, Coming(w, id, xs, n))
  {
    hide PassageOf, PayloadOf, Fitting, Unrefused, ChunksOf, Goes;
    if n > 0 {
      AcrossIs(w, id, xs, n - 1);
      PassageIs(w, id, xs, n - 1);
    }
  }

  /** A chunk of the list comes: it fits, and nothing before it is refused. */
  ghost predicate Brought(w: World, id: bytes, xs: seq<int>, n: nat, x: int)
    requires n <= |xs|
  {
    exists k :: 0 <= k < n && xs[k] == x && Goes(w, id, xs, k) && Fitting(w, id, x)
  }

  lemma {:induction false} ComingMember(w: World, id: bytes, xs: seq<int>, n: nat, x: int)
    requires n <= |xs|
    ensures x in Coming(w, id, xs, n) <==> Brought(w, id, xs, n, x)
  {
    hide Fitting, Goes;
    if n > 0 {
      ComingMember(w, id, xs, n - 1, x);
    }
  }

  lemma {:induction false} ComingIncreases(w: World, id: bytes, xs: seq<int>, n: nat)
    requires n <= |xs| && Increasing(xs)
    ensures Increasing(Coming(w, id, xs, n))
    ensures forall j :: 0 <= j < |Coming(w, id, xs, n)| ==> Coming(w, id, xs, n)[j] in xs[..n]
  {
    hide Fitting, Goes;
    if n > 0 {
      ComingIncreases(w, id, xs, n - 1);
      assert xs[..n] == xs[..n - 1] + [xs[n - 1]];
    }
  }

  /** When all fit, all come. */
  lemma {:induction false} AllCome(w: World, id: bytes, xs: seq<int>, n: nat)
    requires ChunksOf(w, id, xs) && n <= |xs| && AllFitting(w, id, xs)
    ensures Goes(w, id, xs, n) && Coming(w, id, xs, n) == xs[..n]
  {
    hide PassageOf, Fitting, Unrefused, ChunksOf;
    if n > 0 {
      AllCome(w, id, xs, n - 1);
      PassageIs(w, id, xs, n - 1);
      assert xs[..n] == xs[..n - 1] + [xs[n - 1]];
    }
  }

  // ---------------------------------------------------------------- their acceptance

  function ProgressOf(t: Transfer): (p: Progress)
  {
    Progress(t.received, t.highest)
  }

  /** New indexes in increasing order leave the tracker and the highest index that `Repair` computes, and queue the
      transfer once, when they fill its tracker. */
  lemma {:induction false} NewCalls(w: World, c: Config, r: Receiver, now: real, id: bytes, xs: seq<int>, n: nat)
    requires Ready(w, r, id) && Right(w, r, id) && n <= |xs| && Increasing(xs)
    requires forall k :: 0 <= k < |xs| ==> xs[k] in AllOf(r.transfers[id]) - r.transfers[id].received
    ensures var q := AcceptCalls(c, r, Always(now), id, Payloads(w, id, xs), n);
            && Ready(w, q, id) && Right(w, q, id) && QueuedWhenFull(r, q, id) && CallKeeps(r, q, id, now)
            && ProgressOf(q.transfers[id]) == AcceptFirst(ProgressOf(r.transfers[id]), xs, n)
            && (FlagIsFull(r, id) ==> FlagIsFull(q, id))
  {
    hide Ready, Right, HonestChunk, AcceptCall, Honest, Payloads, Increasing, Gained, Interval, FlagIsFull;
    ReadyHas(w, r, id);
    if n == 0 {
      QueuedRefl(r, id);
    } else {
      NewCalls(w, c, r, now, id, xs, n - 1);
      var d, t := Payloads(w, id, xs), r.transfers[id];
      var p, q := AcceptCalls(c, r, Always(now), id, d, n - 1), AcceptCalls(c, r, Always(now), id, d, n);
      ReadyHas(w, p, id);
      PayloadHonest(w, r, id, xs, n - 1);
      NotYet(ProgressOf(t), xs, n - 1);
      NotFull(w, p, id, xs[n - 1]);
      assert q == AcceptCall(c, p, now, id, d[n - 1].key, d[n - 1].value);
      OneCall(w, c, p, now, id, d[n - 1].key, d[n - 1].value);
      OneGain(w, p, q, id, {xs[n - 1]});
      CallQueues(w, c, p, now, id, d[n - 1].key, d[n - 1].value);
      QueuedTrans(r, p, q, id);
    }
  }

  lemma OneGain(w: World, p: Receiver, q: Receiver, id: bytes, s: set<int>)
    requires id in p.transfers && Gained(w, p, q, id, s)
    ensures id in q.transfers
    ensures var t, u := p.transfers[id], q.transfers[id];
            u.manifest == t.manifest && u.part == t.part && u.received == t.received + s
  {
  }

  lemma PayloadHonest(w: World, r: Receiver, id: bytes, xs: seq<int>, k: nat)
    requires Ready(w, r, id) && k < |xs| && xs[k] in AllOf(r.transfers[id])
    ensures var d := Payloads(w, id, xs); HonestChunk(w, id, d[k].key, d[k].value) && d[k].key == xs[k]
  {
    TotalNat(r.transfers[id].manifest);
  }

  lemma NotFull(w: World, r: Receiver, id: bytes, x: int)
    requires Ready(w, r, id) && x in AllOf(r.transfers[id]) && x !in r.transfers[id].received
    ensures !r.transfers[id].finalized
  {
  }

  lemma NotYet(p: Progress, xs: seq<int>, n: nat)
    requires Increasing(xs) && n < |xs| && xs[n] !in p.received
    ensures xs[n] !in AcceptFirst(p, xs, n).received
  {
    AcceptFirstMember(p, xs, n, xs[n]);
  }

  /** What calls leave in the queue: the finalization of the transfer, once, when they fill its tracker. */
  ghost predicate QueuedWhenFull(r: Receiver, q: Receiver, id: bytes)
  {
    id in r.transfers && id in q.transfers &&
    var t, u := r.transfers[id], q.transfers[id];
    && u.dest == t.dest && u.part == t.part && u.manifest == t.manifest && q.finals == r.finals
    && (t.finalized ==> u.finalized)
    && q.queue == r.queue + (if u.finalized && !t.finalized then [Job(t.part, [])] else [])
  }

  /** What calls at one time leave as it was, and the time of the last data. */
  predicate CallKeeps(r: Receiver, q: Receiver, id: bytes, now: real)
  {
    id in r.transfers && id in q.transfers &&
    var t, u := r.transfers[id], q.transfers[id];
    && u.pace == t.pace && (u.lastData == t.lastData || u.lastData == now)
    && q.cache == r.cache && q.todo == r.todo && q.working == r.working
  }

  lemma QueuedTrans(r: Receiver, p: Receiver, q: Receiver, id: bytes)
    requires QueuedWhenFull(r, p, id) && QueuedWhenFull(p, q, id)
    ensures QueuedWhenFull(r, q, id)
  {
  }

  lemma QueuedRefl(r: Receiver, id: bytes)
    requires id in r.transfers
    ensures QueuedWhenFull(r, r, id)
  {
  }

  lemma CallQueues(w: World, c: Config, r: Receiver, now: real, id: bytes, index: int, payload: bytes)
    requires Ready(w, r, id) && HonestChunk(w, id, index, payload)
    ensures var q := AcceptCall(c, r, now, id, index, payload); QueuedWhenFull(r, q, id) && CallKeeps(r, q, id, now)
  {
    var t := r.transfers[id];
    HonestLength(w, id, index, payload);
    TotalNat(t.manifest);
    if t.finalized {
      QueuedRefl(r, id);
      hide QueueFinalization;
    } else {
      AcceptResult(c, r, now, id, index, payload);
      hide AcceptCall, HonestChunk, Honest;
    }
  }

  ghost predicate AllFitting(w: World, id: bytes, xs: seq<int>)
  {
    forall k :: 0 <= k < |xs| ==> Fitting(w, id, xs[k])
  }

  /** Accepting what arrives of a list of new indexes adds exactly that, and is accepting the list if and only if all of it
      fits. */
  lemma OnlyThese(w: World, id: bytes, p: Progress, xs: seq<int>)
    requires ChunksOf(w, id, xs) && forall k :: 0 <= k < |xs| ==> xs[k] !in p.received
    ensures var ys := Coming(w, id, xs, |xs|);
            && (forall x :: x in AcceptFirst(p, ys, |ys|).received <==> x in p.received || Brought(w, id, xs, |xs|, x))
            && (AcceptFirst(p, ys, |ys|) == AcceptFirst(p, xs, |xs|) <==> AllFitting(w, id, xs))
  {
    var ys := Coming(w, id, xs, |xs|);
    hide AcceptFirst, Fitting, ChunksOf, Coming, Goes;
    assert ys[..|ys|] == ys && xs[..|xs|] == xs;
    forall x ensures x in AcceptFirst(p, ys, |ys|).received <==> x in p.received || Brought(w, id, xs, |xs|, x) {
      AcceptFirstMember(p, ys, |ys|, x);
      ComingMember(w, id, xs, |xs|, x);
    }
    if AllFitting(w, id, xs) {
      AllCome(w, id, xs, |xs|);
    } else {
      var k :| 0 <= k < |xs| && !Fitting(w, id, xs[k]);
      AcceptFirstMember(p, xs, |xs|, xs[k]);
      assert xs[k] in xs && !Brought(w, id, xs, |xs|, xs[k]);
    }
  }

  /** What arrives of a list of new indexes is accepted, and nothing else is. */
  lemma Arrivals(w: World, c: Config, r: Receiver, now: real, id: bytes, xs: seq<int>)
    requires Ready(w, r, id) && Right(w, r, id) && Increasing(xs) && ChunksOf(w, id, xs)
    requires forall k :: 0 <= k < |xs| ==> xs[k] in AllOf(r.transfers[id]) - r.transfers[id].received
    ensures var ys, d := Coming(w, id, xs, |xs|), Across(w, id, xs, |xs|);
            var q := AcceptCalls(c, r, Always(now), id, d, |d|);
            && Ready(w, q, id) && Right(w, q, id) && QueuedWhenFull(r, q, id) && CallKeeps(r, q, id, now)
            && ProgressOf(q.transfers[id]) == AcceptFirst(ProgressOf(r.transfers[id]), ys, |ys|)
            && (FlagIsFull(r, id) ==> FlagIsFull(q, id))
  {
    hide Ready, Right, Across, Coming, Fitting, FlagIsFull, AllOf, AcceptCalls, AcceptFirst, ChunksOf, Increasing;
    ReadyHas(w, r, id);
    AcrossIs(w, id, xs, |xs|);
    ComingIncreases(w, id, xs, |xs|);
    var ys := Coming(w, id, xs, |xs|);
    forall j | 0 <= j < |ys| ensures ys[j] in AllOf(r.transfers[id]) - r.transfers[id].received {
      assert ys[j] in xs[..|xs|];
    }
    NewCalls(w, c, r, now, id, ys, |ys|);
  }

  /** A payload of 65504 to 65535 octets is encoded into a frame that one read cuts, and what is read does not decode. */
  lemma LongFrameIsCut(id: bytes, index: int, payload: bytes)
    requires Fits(index, 4) && READ_SIZE - HEADER_SIZE - DATA_FIXED < |payload| <= MAX_PAYLOAD
    ensures var raw := Encode(DataMsg(Chunk(id, index, payload)));
            raw.Ok? && |raw.value| > READ_SIZE && Decode(Read(raw.value)).Err?
  {
    ChunkEncodes(Chunk(id, index, payload));
    ChunkFrameSize(Chunk(id, index, payload));
    CutIsRefused(DataMsg(Chunk(id, index, payload)));
    hide EncodeChunk, Decode;
  }
}
