/** Runs of `_accept_data` calls on one transfer: what a list of honest chunks does to it, at whatever times.  From this
    follows that late METADATA gives the same result as early METADATA. */
module Delivery {
  import opened Bytes
  import opened Ranges
  import opened Frames
  import opened Repair
  import opened PreMetadata
  import opened Pacing
  import opened ReceiverModel
  import opened Safety
  import opened Invariant

  /** A whole `_accept_data` call: the locked part, then the finalization it asks for. */
  function AcceptCall(c: Config, r: Receiver, now: real, id: bytes, index: int, payload: bytes): (q: Receiver)
  {
    var p := AcceptData(c, r, now, id, index, payload);
    if p.todo != r.todo then QueueFinalization(c, p.(todo := r.todo), now, id, []) else p
  }

  type Chunks = Dict<int, bytes>

  /** The time of every call. */
  type Times = nat -> real

  function Always(now: real): (t: Times)
  {
    _ => now
  }

  /** The calls for the first `n` chunks of a list, each at its time. */
  function AcceptCalls(c: Config, r: Receiver, now: Times, id: bytes, xs: Chunks, n: nat): (q: Receiver)
    requires n <= |xs|
  {
    if n == 0 then r
    else AcceptCall(c, AcceptCalls(c, r, now, id, xs, n - 1), now(n - 1), id, xs[n - 1].key, xs[n - 1].value)
  }

  function Keys(xs: Chunks, n: nat): (s: set<int>)
    requires n <= |xs|
  {
    set k | 0 <= k < n :: xs[k].key
  }

  ghost predicate HonestChunks(w: World, id: bytes, xs: Chunks)
  {
    forall k :: 0 <= k < |xs| ==> HonestChunk(w, id, xs[k].key, xs[k].value)
  }

  /** A transfer of an honest manifest whose part file is there. */
  ghost predicate Ready(w: World, r: Receiver, id: bytes)
  {
    id in r.transfers &&
    var t := r.transfers[id];
    && Honest(w, t.manifest) && t.manifest.id == id && t.received <= AllOf(t)
    && t.part in r.parts && |r.parts[t.part]| == t.manifest.fileSize
    && !t.done && (t.finalized ==> t.received == AllOf(t))
  }

  /** The flag says whether the tracker is full.  A transfer that was restored full does not have this yet. */
  predicate FlagIsFull(r: Receiver, id: bytes)
  {
    id in r.transfers && (r.transfers[id].finalized <==> r.transfers[id].received == AllOf(r.transfers[id]))
  }

  /** The transfer of `q` is the one of `r` with the chunks of `s` added: to the tracker, and to the part file, every
      other chunk of which is as before. */
  ghost predicate Gained(w: World, r: Receiver, q: Receiver, id: bytes, s: set<int>)
    requires id in r.transfers
  {
    id in q.transfers &&
    var t, u := r.transfers[id], q.transfers[id];
    && u.manifest == t.manifest && u.part == t.part && u.received == t.received + s
    && t.part in r.parts && t.part in q.parts && |q.parts[t.part]| == |r.parts[t.part]| && t.manifest.chunkSize > 0
    && (forall i :: i >= 0 && i !in s ==>
          ChunkOf(q.parts[t.part], t.manifest.chunkSize, i) == ChunkOf(r.parts[t.part], t.manifest.chunkSize, i))
    && (forall i :: i >= 0 && i in s ==>
          ChunkOf(q.parts[t.part], t.manifest.chunkSize, i) == ChunkOf(w.source(Sig(t)), t.manifest.chunkSize, i))
  }

  /** Every chunk of the tracker is right in the part file. */
  ghost predicate Right(w: World, r: Receiver, id: bytes)
    requires id in r.transfers
  {
    var t := r.transfers[id];
    t.part in r.parts && Holds(w, Sig(t), r.parts[t.part], t.received)
  }

  /** One honest chunk. */
  lemma OneCall(w: World, c: Config, r: Receiver, now: real, id: bytes, index: int, payload: bytes)
    requires Ready(w, r, id) && Right(w, r, id) && HonestChunk(w, id, index, payload)
    ensures var q := AcceptCall(c, r, now, id, index, payload);
            && Ready(w, q, id) && Right(w, q, id) && Gained(w, r, q, id, {index}) && FlagIsFull(q, id)
            && (!r.transfers[id].finalized ==> q.transfers[id].highest == Max(r.transfers[id].highest, index))
  {
    var t := r.transfers[id];
    HonestLength(w, id, index, payload);
    TotalNat(t.manifest);
    assert index in AllOf(t);
    if t.finalized {
      assert t.received + {index} == t.received;
      assert HoldsChunk(w, Sig(t), r.parts[t.part], index);
    } else {
      CallWrites(w, c, r, now, id, index, payload);
    }
  }

  lemma CallWrites(w: World, c: Config, r: Receiver, now: real, id: bytes, index: int, payload: bytes)
    requires Ready(w, r, id) && Right(w, r, id) && HonestChunk(w, id, index, payload) && !r.transfers[id].finalized
    requires index in AllOf(r.transfers[id])
    ensures var q := AcceptCall(c, r, now, id, index, payload);
            && Ready(w, q, id) && Right(w, q, id) && Gained(w, r, q, id, {index}) && FlagIsFull(q, id)
            && q.transfers[id].highest == Max(r.transfers[id].highest, index)
  {
    var t, n := r.transfers[id], r.transfers[id].manifest.chunkSize;
    HonestLength(w, id, index, payload);
    HonestWrite(w, id, index, payload, r.parts[t.part], t.received);
    var file := WriteAt(r.parts[t.part], index * n, payload);
    forall i | i >= 0
      ensures ChunkOf(file, n, i) == if i == index then payload else ChunkOf(r.parts[t.part], n, i)
    {
      WriteChunk(r.parts[t.part], n, index, payload, i);
    }
    var received := t.received + {index};
    FullIff(received, t.manifest.totalChunks);
    AcceptResult(c, r, now, id, index, payload);
    hide Holds, HonestChunk, Honest, ChunkOf, WriteAt, AcceptData, AcceptCall, QueueFinalization;
  }

  lemma FullIff(s: set<int>, n: int)
    requires s <= Interval(0, n) && n >= 0
    ensures |s| >= n <==> s == Interval(0, n)
  {
    IntervalSize(0, n);
    SubsetSize(s, Interval(0, n));
  }

  /** What an accepted call leaves, field by field. */
  lemma AcceptResult(c: Config, r: Receiver, now: real, id: bytes, index: int, payload: bytes)
    requires id in r.transfers
    requires var t := r.transfers[id];
             && !t.done && !t.finalized && t.part in r.parts && |r.parts[t.part]| == t.manifest.fileSize
             && 0 <= index < t.manifest.totalChunks && 0 <= index * t.manifest.chunkSize
             && index * t.manifest.chunkSize + |payload| <= t.manifest.fileSize
    ensures var q, t := AcceptCall(c, r, now, id, index, payload), r.transfers[id];
            && q.parts == r.parts[t.part := WriteAt(r.parts[t.part], index * t.manifest.chunkSize, payload)]
            && id in q.transfers
            && q.transfers[id] == t.(received := t.received + {index}, highest := Max(t.highest, index),
                                     finalized := |t.received + {index}| >= t.manifest.totalChunks,
                                     lastActivity := now, lastData := now)
            && q.todo == r.todo && q.finals == r.finals && q.cache == r.cache && q.working == r.working
            && q.queue == r.queue + (if |t.received + {index}| >= t.manifest.totalChunks then [Job(t.part, [])] else [])
  {
    hide WriteAt, JournalOf;
    assert [Queue(id, [])] + r.todo != r.todo by {
      assert |[Queue(id, [])] + r.todo| == |r.todo| + 1;
    }
    assert [] + r.todo == r.todo && r.queue + [] == r.queue;
  }

  /** DATA that is not for an open transfer changes nothing of any transfer: beyond the file or after its finalization it is
      ignored, and of an unknown transfer it goes to the buffer. */
  lemma OtherData(c: Config, r: Receiver, now: real, id: bytes, index: int, payload: bytes)
    requires id in r.transfers ==>
               var t := r.transfers[id];
               || t.done || t.finalized || index >= t.manifest.totalChunks
               || index * t.manifest.chunkSize + |payload| > t.manifest.fileSize
    ensures var q := AcceptCall(c, r, now, id, index, payload);
            q == if id in r.transfers then r else r.(pre := Buffer(c.pre, r.pre, now, id, index, payload))
  {
    hide Buffer;
  }

  lemma GainedTrans(w: World, r: Receiver, p: Receiver, q: Receiver, id: bytes, a: set<int>, b: set<int>)
    requires id in r.transfers && Gained(w, r, p, id, a) && Gained(w, p, q, id, b)
    ensures Gained(w, r, q, id, a + b)
  {
    hide ChunkOf;
  }

  lemma GainedNothing(w: World, r: Receiver, id: bytes)
    requires Ready(w, r, id)
    ensures Gained(w, r, r, id, {})
  {
    hide ChunkOf;
  }

  /** A list of honest chunks, in any order and with any repetitions, adds exactly its chunks. */
  lemma {:induction false} AllCalls(w: World, c: Config, r: Receiver, now: Times, id: bytes, xs: Chunks, n: nat)
    requires Ready(w, r, id) && Right(w, r, id) && HonestChunks(w, id, xs) && n <= |xs|
    ensures var q := AcceptCalls(c, r, now, id, xs, n);
            Ready(w, q, id) && Right(w, q, id) && Gained(w, r, q, id, Keys(xs, n)) && (n > 0 ==> FlagIsFull(q, id))
  {
    hide Ready, Right, Gained, AcceptCall, HonestChunk, FlagIsFull;
    if n == 0 {
      ReadyHas(w, r, id);
      GainedNothing(w, r, id);
      assert Keys(xs, 0) == {};
    } else {
      AllCalls(w, c, r, now, id, xs, n - 1);
      var p := AcceptCalls(c, r, now, id, xs, n - 1);
      ReadyHas(w, r, id);
      ReadyHas(w, p, id);
      OneCall(w, c, p, now(n - 1), id, xs[n - 1].key, xs[n - 1].value);
      GainedTrans(w, r, p, AcceptCalls(c, r, now, id, xs, n), id, Keys(xs, n - 1), {xs[n - 1].key});
      KeysStep(xs, n);
    }
  }

  lemma ReadyHas(w: World, r: Receiver, id: bytes)
    requires Ready(w, r, id)
    ensures id in r.transfers
  {
  }

  lemma KeysStep(xs: Chunks, n: nat)
    requires 0 < n <= |xs|
    ensures Keys(xs, n) == Keys(xs, n - 1) + {xs[n - 1].key}
  {
  }

  /** Two files of one length with equal chunks are equal. */
  lemma FilesEqual(a: bytes, b: bytes, n: int)
    requires |a| == |b| && n > 0
    requires forall i :: i >= 0 ==> ChunkOf(a, n, i) == ChunkOf(b, n, i)
    ensures a == b
  {
    forall k | 0 <= k < |a| ensures a[k] == b[k] {
      var i := k / n;
      assert i * n <= k < i * n + n;
      Product(i, n);
      assert ChunkOf(a, n, i)[k - i * n] == a[k];
      assert ChunkOf(b, n, i)[k - i * n] == b[k];
    }
  }

  /** Order and repetition do not matter: two lists with the same chunk numbers give the same tracker, the same part file
      and the same finalization flag. */
  lemma SameKeysSameResult(w: World, c: Config, r: Receiver, p: Receiver, now: Times, later: Times, id: bytes,
                           xs: Chunks, ys: Chunks)
    requires Ready(w, r, id) && Right(w, r, id) && Ready(w, p, id) && Right(w, p, id)
    requires r.transfers[id].manifest == p.transfers[id].manifest && r.transfers[id].part == p.transfers[id].part
    requires r.transfers[id].received == p.transfers[id].received
    requires r.transfers[id].finalized == p.transfers[id].finalized
    requires r.parts[r.transfers[id].part] == p.parts[r.transfers[id].part]
    requires HonestChunks(w, id, xs) && HonestChunks(w, id, ys) && Keys(xs, |xs|) == Keys(ys, |ys|)
    ensures var q, o := AcceptCalls(c, r, now, id, xs, |xs|), AcceptCalls(c, p, later, id, ys, |ys|);
            && id in q.transfers && id in o.transfers
            && q.transfers[id].received == o.transfers[id].received == r.transfers[id].received + Keys(xs, |xs|)
            && q.transfers[id].finalized == o.transfers[id].finalized
            && q.transfers[id].part == o.transfers[id].part == r.transfers[id].part
            && q.transfers[id].part in q.parts && q.transfers[id].part in o.parts
            && q.parts[q.transfers[id].part] == o.parts[q.transfers[id].part]
  {
    hide *;
    AllCalls(w, c, r, now, id, xs, |xs|);
    AllCalls(w, c, p, later, id, ys, |ys|);
    var q, o := AcceptCalls(c, r, now, id, xs, |xs|), AcceptCalls(c, p, later, id, ys, |ys|);
    ReadyHas(w, r, id);
    ReadyHas(w, p, id);
    NoKeys(xs);
    NoKeys(ys);
    NoCalls(c, r, now, id, xs);
    NoCalls(c, p, later, id, ys);
    SameGain(w, r, p, q, o, id, Keys(xs, |xs|));
    SameFlag(r, p, q, o, id, xs == []);
  }

  lemma NoCalls(c: Config, r: Receiver, now: Times, id: bytes, xs: Chunks)
    ensures xs == [] ==> AcceptCalls(c, r, now, id, xs, |xs|) == r
  {
  }

  /** Gaining the same chunks from equal files leaves equal trackers and equal files. */
  lemma SameGain(w: World, r: Receiver, p: Receiver, q: Receiver, o: Receiver, id: bytes, s: set<int>)
    requires id in r.transfers && id in p.transfers && Gained(w, r, q, id, s) && Gained(w, p, o, id, s)
    requires r.transfers[id].manifest == p.transfers[id].manifest && r.transfers[id].part == p.transfers[id].part
    requires r.transfers[id].received == p.transfers[id].received
    requires r.parts[r.transfers[id].part] == p.parts[r.transfers[id].part]
    ensures id in q.transfers && id in o.transfers
    ensures q.transfers[id].manifest == o.transfers[id].manifest == r.transfers[id].manifest
    ensures q.transfers[id].received == o.transfers[id].received == r.transfers[id].received + s
    ensures q.transfers[id].part == o.transfers[id].part == r.transfers[id].part
    ensures var part := r.transfers[id].part;
            part in q.parts && part in o.parts && q.parts[part] == o.parts[part]
  {
    var part, n := r.transfers[id].part, r.transfers[id].manifest.chunkSize;
    hide ChunkOf;
    forall i | i >= 0 ensures ChunkOf(q.parts[part], n, i) == ChunkOf(o.parts[part], n, i) {
    }
    FilesEqual(q.parts[part], o.parts[part], n);
  }

  lemma SameFlag(r: Receiver, p: Receiver, q: Receiver, o: Receiver, id: bytes, none: bool)
    requires id in r.transfers && id in p.transfers && id in q.transfers && id in o.transfers
    requires r.transfers[id].finalized == p.transfers[id].finalized
    requires q.transfers[id].received == o.transfers[id].received && q.transfers[id].manifest == o.transfers[id].manifest
    requires if none then q == r && o == p else FlagIsFull(q, id) && FlagIsFull(o, id)
    ensures q.transfers[id].finalized == o.transfers[id].finalized
  {
  }

  lemma NoKeys(xs: Chunks)
    ensures Keys(xs, |xs|) == {} <==> xs == []
  {
    if xs != [] {
      assert xs[0].key in Keys(xs, |xs|);
    }
  }

  // ---------------------------------------------------------------- late metadata

  /** The buffer after the first `n` of any operations: chunks of any transfer, pops, expiry, each at its own time. */
  function After(c: PreConfig, s: Pre, ops: seq<PreOp>, n: nat): (p: Pre)
    requires n <= |ops|
  {
    if n == 0 then s else Apply(c, After(c, s, ops, n - 1), ops[n - 1])
  }

  function HeldFor(s: Pre, id: bytes): (d: Chunks)
  {
    if Has(s.pending, id) then Get(s.pending, id).chunks else []
  }

  predicate Buffers(op: PreOp, id: bytes)
  {
    op.BufferOp? && op.id == id
  }

  /** The chunks of transfer `id` among the first `n` operations. */
  function EarlyChunks(ops: seq<PreOp>, id: bytes, n: nat): (xs: Chunks)
    requires n <= |ops|
  {
    if n == 0 then []
    else EarlyChunks(ops, id, n - 1)
         + (if Buffers(ops[n - 1], id) then [Entry(ops[n - 1].index, ops[n - 1].payload)] else [])
  }

  /** No chunk of the transfer was refused, and its record was never evicted, expired or popped: every operation either
      added the transfer's chunk to what was held for it or left that as it was. */
  ghost predicate NoneLost(c: PreConfig, s: Pre, ops: seq<PreOp>, id: bytes)
  {
    forall k :: 0 <= k < |ops| ==> Kept(c, s, ops, id, k)
  }

  predicate Kept(c: PreConfig, s: Pre, ops: seq<PreOp>, id: bytes, k: nat)
    requires k < |ops|
  {
    var before, after := After(c, s, ops, k), After(c, s, ops, k + 1);
    if Buffers(ops[k], id)
    then Has(after.pending, id) && HeldFor(after, id) == Put(HeldFor(before, id), ops[k].index, ops[k].payload)
    else HeldFor(after, id) == HeldFor(before, id)
  }

  lemma PutKeys(d: Chunks, k: int, v: bytes)
    ensures Keys(Put(d, k, v), |Put(d, k, v)|) == Keys(d, |d|) + {k}
  {
    var r, p := Put(d, k, v), Position(d, k, 0);
    forall x | x in Keys(d, |d|) + {k} ensures x in Keys(r, |r|) {
      if x == k {
        assert r[p].key == k;
      } else {
        var i :| 0 <= i < |d| && d[i].key == x;
        assert r[i].key == x;
      }
    }
  }

  lemma {:induction false} HeldKeys(c: PreConfig, s: Pre, ops: seq<PreOp>, id: bytes, n: nat)
    requires NoneLost(c, s, ops, id) && !Has(s.pending, id) && n <= |ops|
    ensures var d, xs := HeldFor(After(c, s, ops, n), id), EarlyChunks(ops, id, n);
            Keys(d, |d|) == Keys(xs, |xs|)
  {
    hide Put, Apply, Get;
    if n == 0 {
      assert Keys([], 0) == {};
    } else {
      HeldKeys(c, s, ops, id, n - 1);
      assert Kept(c, s, ops, id, n - 1);
      var xs := EarlyChunks(ops, id, n - 1);
      if Buffers(ops[n - 1], id) {
        PutKeys(HeldFor(After(c, s, ops, n - 1), id), ops[n - 1].index, ops[n - 1].payload);
        SnocKeys(xs, Entry(ops[n - 1].index, ops[n - 1].payload));
      } else {
        assert xs + [] == xs;
      }
    }
  }

  lemma SnocKeys(xs: Chunks, e: Entry<int, bytes>)
    ensures Keys(xs + [e], |xs| + 1) == Keys(xs, |xs|) + {e.key}
  {
    var ys := xs + [e];
    forall x | x in Keys(xs, |xs|) + {e.key} ensures x in Keys(ys, |ys|) {
      if x in Keys(xs, |xs|) {
        var k :| 0 <= k < |xs| && xs[k].key == x;
        assert ys[k].key == x;
      } else {
        assert ys[|xs|].key == x;
      }
    }
  }

  /** The chunks of the transfer that the operations bring are honest. */
  ghost predicate HonestOps(w: World, ops: seq<PreOp>, id: bytes)
  {
    forall k :: 0 <= k < |ops| && Buffers(ops[k], id) ==> HonestChunk(w, id, ops[k].index, ops[k].payload)
  }

  lemma PutHonest(w: World, id: bytes, d: Chunks, index: int, payload: bytes)
    requires HonestChunks(w, id, d) && HonestChunk(w, id, index, payload)
    ensures HonestChunks(w, id, Put(d, index, payload))
  {
    hide HonestChunk;
  }

  lemma {:induction false} HeldHonest(w: World, c: PreConfig, s: Pre, ops: seq<PreOp>, id: bytes, n: nat)
    requires NoneLost(c, s, ops, id) && !Has(s.pending, id) && HonestOps(w, ops, id) && n <= |ops|
    ensures HonestChunks(w, id, HeldFor(After(c, s, ops, n), id))
  {
    hide Put, Apply, Get, HonestChunk;
    if n > 0 {
      HeldHonest(w, c, s, ops, id, n - 1);
      assert Kept(c, s, ops, id, n - 1);
      if Buffers(ops[n - 1], id) {
        PutHonest(w, id, HeldFor(After(c, s, ops, n - 1), id), ops[n - 1].index, ops[n - 1].payload);
      }
    }
  }

  lemma {:induction false} EarlyHonest(w: World, ops: seq<PreOp>, id: bytes, n: nat)
    requires HonestOps(w, ops, id) && n <= |ops|
    ensures HonestChunks(w, id, EarlyChunks(ops, id, n))
  {
    hide HonestChunk;
    if n > 0 {
      EarlyHonest(w, ops, id, n - 1);
    }
  }

  lemma ReplayedHonest(w: World, s: Pre, id: bytes)
    requires HonestChunks(w, id, HeldFor(s, id))
    ensures HonestChunks(w, id, Popped(s, id))
  {
    hide HonestChunk;
    var d, ys := HeldFor(s, id), Popped(s, id);
    forall k | 0 <= k < |ys| ensures HonestChunk(w, id, ys[k].key, ys[k].value) {
      SortedByKeyMember(d, |d|, ys[k]);
      assert d[..|d|] == d;
      assert ys[k] in d;
    }
  }

  /** The chunks replayed for a record are the chunks held, whatever their order. */
  lemma PoppedKeys(s: Pre, id: bytes)
    ensures Keys(Popped(s, id), |Popped(s, id)|) == Keys(HeldFor(s, id), |HeldFor(s, id)|)
  {
    var d, ys := HeldFor(s, id), Popped(s, id);
    if Has(s.pending, id) {
      forall x ensures x in Keys(ys, |ys|) <==> x in Keys(d, |d|) {
        assert d[..|d|] == d;
        if x in Keys(ys, |ys|) {
          var k :| 0 <= k < |ys| && ys[k].key == x;
          SortedByKeyMember(d, |d|, ys[k]);
          assert ys[k] in d;
        }
        if x in Keys(d, |d|) {
          var k :| 0 <= k < |d| && d[k].key == x;
          SortedByKeyMember(d, |d|, d[k]);
          assert d[k] in ys;
        }
      }
    }
  }

  /** The state in which METADATA finds nothing registered under its id or signature. */
  ghost predicate Unknown(w: World, r: Receiver, m: Manifest)
  {
    && Honest(w, m) && w.host.dest(m.name).Some? && m.id !in r.transfers && SignatureOf(m) !in r.index && r.todo == []
    && m.totalChunks > 0 && PartsOk(w, r.parts)
  }

  lemma RegisteredReady(w: World, c: Config, r: Receiver, now: real, m: Manifest)
    requires Unknown(w, r, m)
    ensures var q := RegisterTransfer(w.host, c, r, now, m).state;
            && Ready(w, q, m.id) && Right(w, q, m.id) && q.transfers[m.id].manifest == m && q.transfers[m.id].part == m.id
            && q.transfers[m.id].received == {} && !q.transfers[m.id].finalized
            && q.parts[m.id] == (if m.id in r.parts then r.parts[m.id] else Zeros(m.fileSize))
  {
    TotalNat(m);
    assert 0 in Interval(0, m.totalChunks);
    hide Popped, Pop, AdvertiseState, Holds, HoldsChunk, Buffer;
    assert FoundIndex(r, SignatureOf(m)) == r.index;
    var q := RegisterTransfer(w.host, c, r, now, m).state;
    assert Holds(w, SignatureOf(m), q.parts[m.id], {}) by {
      NothingHeld(w, m, q.parts[m.id]);
    }
  }

  lemma NothingHeld(w: World, m: Manifest, file: bytes)
    requires Honest(w, m) && |file| == m.fileSize && m.totalChunks > 0
    ensures Holds(w, SignatureOf(m), file, {})
  {
    TotalNat(m);
  }

  /** The receiver that got the chunks first, in among other operations on its buffer. */
  function BufferedFirst(c: Config, r: Receiver, ops: seq<PreOp>): (q: Receiver)
  {
    r.(pre := After(c.pre, r.pre, ops, |ops|))
  }

  lemma ReplayFacts(w: World, c: Config, r: Receiver, m: Manifest, ops: seq<PreOp>)
    requires Unknown(w, r, m) && HonestOps(w, ops, m.id)
    requires !Has(r.pre.pending, m.id) && NoneLost(c.pre, r.pre, ops, m.id)
    ensures var b, xs := BufferedFirst(c, r, ops), EarlyChunks(ops, m.id, |ops|);
            var replayed := Popped(b.pre, m.id);
            && Unknown(w, b, m) && b.parts == r.parts
            && HonestChunks(w, m.id, xs) && HonestChunks(w, m.id, replayed)
            && Keys(replayed, |replayed|) == Keys(xs, |xs|)
  {
    hide After, Popped, HonestChunks, Keys, Kept, Honest, PartsOk, NoneLost, HeldFor, Has, HonestOps, EarlyChunks;
    var b := BufferedFirst(c, r, ops);
    HeldKeys(c.pre, r.pre, ops, m.id, |ops|);
    PoppedKeys(b.pre, m.id);
    HeldHonest(w, c.pre, r.pre, ops, m.id, |ops|);
    ReplayedHonest(w, b.pre, m.id);
    EarlyHonest(w, ops, m.id, |ops|);
  }

  /** Late METADATA equals early METADATA.  Take any operations on the buffer, of this and of other transfers, each at its
      own time, that lose none of the chunks of a new transfer.  Registering the transfer after them and replaying what
      was buffered gives the same tracker, the same part file and the same finalization flag as registering it first and
      accepting its chunks as they come, at whatever times. */
  lemma LateEqualsEarly(w: World, c: Config, r: Receiver, m: Manifest, ops: seq<PreOp>,
                        first: real, times: Times, last: real, later: Times)
    requires Unknown(w, r, m) && HonestOps(w, ops, m.id)
    requires !Has(r.pre.pending, m.id) && NoneLost(c.pre, r.pre, ops, m.id)
    ensures var xs := EarlyChunks(ops, m.id, |ops|);
            var early := AcceptCalls(c, RegisterTransfer(w.host, c, r, first, m).state, times, m.id, xs, |xs|);
            var buffered := BufferedFirst(c, r, ops);
            var replayed := Popped(buffered.pre, m.id);
            var registered := RegisterTransfer(w.host, c, buffered, last, m).state;
            var late := AcceptCalls(c, registered, later, m.id, replayed, |replayed|);
            && m.id in early.transfers && m.id in late.transfers
            && late.transfers[m.id].received == early.transfers[m.id].received == Keys(xs, |xs|)
            && late.transfers[m.id].finalized == early.transfers[m.id].finalized
            && m.id in early.parts && m.id in late.parts && late.parts[m.id] == early.parts[m.id]
  {
    hide *;
    var buffered, xs := BufferedFirst(c, r, ops), EarlyChunks(ops, m.id, |ops|);
    var replayed := Popped(buffered.pre, m.id);
    ReplayFacts(w, c, r, m, ops);
    RegisteredReady(w, c, r, first, m);
    RegisteredReady(w, c, buffered, last, m);
    var q, o := RegisterTransfer(w.host, c, r, first, m).state, RegisterTransfer(w.host, c, buffered, last, m).state;
    ReadyHas(w, q, m.id);
    ReadyHas(w, o, m.id);
    SameKeysSameResult(w, c, q, o, times, later, m.id, xs, replayed);
  }

  // ---------------------------------------------------------------- replaying is calling

  /** `n` turns of the main thread, and what they send. */
  function Turns(h: Host, c: Config, r: Receiver, now: real, n: nat): (o: Outcome)
  {
    if n == 0 then Outcome(r, [])
    else
      var p := Turns(h, c, r, now, n - 1);
      if p.state.todo == [] then p
      else
        var q := RunTask(h, c, p.state, now);
        Outcome(q.state, p.sent + q.sent)
  }

  lemma {:induction false} TurnsAdd(h: Host, c: Config, r: Receiver, now: real, n: nat, k: nat)
    ensures var p := Turns(h, c, r, now, n);
            var q := Turns(h, c, p.state, now, k);
            Turns(h, c, r, now, n + k) == Outcome(q.state, p.sent + q.sent)
  {
    hide RunTask;
    if k > 0 {
      TurnsAdd(h, c, r, now, n, k - 1);
    }
  }

  /** The replay tasks from chunk `k` on. */
  function Replays(id: bytes, xs: Chunks, k: nat): (t: seq<Task>)
    requires k <= |xs|
    ensures |t| == |xs| - k
  {
    seq(|xs| - k, i requires 0 <= i < |xs| - k => Replay(id, xs[k + i].key, xs[k + i].value))
  }

  lemma TurnOfReplay(h: Host, c: Config, r: Receiver, now: real, n: nat, id: bytes, index: int, payload: bytes,
                     rest: seq<Task>, s: Receiver) returns (k: nat)
    requires Turns(h, c, r, now, n) == Outcome(s.(todo := [Replay(id, index, payload)] + rest), [])
    ensures Turns(h, c, r, now, k) == Outcome(AcceptCall(c, s, now, id, index, payload).(todo := rest), [])
  {
    hide AcceptData, QueueFinalization, RegisterTransfer, AdvertiseState;
    var p := Turns(h, c, r, now, n).state;
    assert p.todo[1..] == rest;
    var q := AcceptData(c, p.(todo := rest), now, id, index, payload);
    assert Turns(h, c, r, now, n + 1) == Outcome(q, []);
    var more := AcceptTodo(c, s, rest, now, id, index, payload);
    if more == [] {
      k := n + 1;
    } else {
      assert q.todo[1..] == rest;
      k := n + 2;
      QueueTodo(c, AcceptData(c, s, now, id, index, payload), s.todo, now, id);
      QueueTodo(c, AcceptData(c, s, now, id, index, payload), rest, now, id);
    }
  }

  lemma FlushTodo(c: Config, r: Receiver, todo: seq<Task>, now: real)
    ensures Flush(c, r.(todo := todo), now, true) == Flush(c, r, now, true).(todo := todo)
  {
    hide JournalOf;
  }

  lemma QueueTodo(c: Config, r: Receiver, todo: seq<Task>, now: real, id: bytes)
    ensures QueueFinalization(c, r.(todo := todo), now, id, []) == QueueFinalization(c, r, now, id, []).(todo := todo)
  {
    hide Flush;
    if id in r.transfers {
      var t := r.transfers[id].(finalized := true);
      FlushTodo(c, r.(transfers := r.transfers[id := t], dirty := true), todo, now);
    }
  }

  /** Accepting a chunk only adds to the front of what is left to do. */
  lemma AcceptTodo(c: Config, s: Receiver, rest: seq<Task>, now: real, id: bytes, index: int, payload: bytes)
    returns (more: seq<Task>)
    ensures var a, b := AcceptData(c, s, now, id, index, payload), AcceptData(c, s.(todo := rest), now, id, index, payload);
            && (more == [] || more == [Queue(id, [])]) && b == a.(todo := more + rest)
            && (more == [] ==> a.todo == s.todo && b.todo == rest)
            && (more != [] ==> a.todo != s.todo && b.todo != rest)
  {
    hide Buffer, WritePart, Max;
    var one := [Queue(id, [])];
    more := [];
    assert |one + s.todo| == |s.todo| + 1 && |one + rest| == |rest| + 1;
    assert [] + s.todo == s.todo && [] + rest == rest;
    if id in s.transfers && AcceptData(c, s, now, id, index, payload).todo != s.todo {
      more := one;
    }
  }

  /** The main thread's replay of buffered chunks, task by task with the finalization queued in between, does what the
      calls one after the other do. */
  lemma {:induction false} ReplayIsCalls(h: Host, c: Config, r: Receiver, now: real, id: bytes, xs: Chunks, rest: seq<Task>,
                                         k: nat) returns (n: nat)
    requires k <= |xs|
    ensures Turns(h, c, r.(todo := Replays(id, xs, 0) + rest), now, n)
         == Outcome(AcceptCalls(c, r, Always(now), id, xs, k).(todo := Replays(id, xs, k) + rest), [])
  {
    hide AcceptCall, RunTask;
    if k == 0 {
      n := 0;
    } else {
      n := ReplayIsCalls(h, c, r, now, id, xs, rest, k - 1);
      var s := AcceptCalls(c, r, Always(now), id, xs, k - 1);
      ReplaysStep(id, xs, k, rest);
      hide Turns, Replays, AcceptCalls;
      n := TurnOfReplay(h, c, r.(todo := Replays(id, xs, 0) + rest), now, n, id, xs[k - 1].key, xs[k - 1].value,
                        Replays(id, xs, k) + rest, s);
    }
  }

  lemma ReplaysStep(id: bytes, xs: Chunks, k: nat, rest: seq<Task>)
    requires 0 < k <= |xs|
    ensures Replays(id, xs, k - 1) + rest == [Replay(id, xs[k - 1].key, xs[k - 1].value)] + (Replays(id, xs, k) + rest)
  {
  }
}
