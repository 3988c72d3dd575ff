/** The sending loops of `sender.py`: the initial pass with its deliberate drops, the tail resend, the servicing of repair
    requests, the polling drain and the wait after the stream.  The loops read what arrives as a list of datagrams and
    every outside decision (a stop request, a blocked socket, a coin, an exhausted budget) as a parameter.  A frame that
    the encoder refuses, or a STATUS frame that does not decode, ends a call with the error. */
module Sender {
  import opened Bytes
  import opened Ranges
  import opened Frames
  import opened Repair
  import opened ReceiverModel
  import opened Safety
  import opened System
  import Theorems

  /** What `send_file` works on: the manifest and the file it was built from. */
  datatype Source = Source(manifest: Manifest, file: bytes)

  ghost predicate SourceOk(s: Source)
  {
    var m := s.manifest;
    && m.chunkSize > 0 && |s.file| == m.fileSize && m.totalChunks == ExpectedChunks(m.fileSize, m.chunkSize)
  }

  function ChunkAt(s: Source, i: int): (c: Chunk)
    requires SourceOk(s) && i >= 0
  {
    Chunk(s.manifest.id, i, ChunkOf(s.file, s.manifest.chunkSize, i))
  }

  /** The chunks of a list of indexes, as they go out. */
  ghost function ChunksAt(s: Source, xs: seq<int>): (cs: seq<Chunk>)
    requires SourceOk(s) && forall k :: 0 <= k < |xs| ==> xs[k] >= 0
    ensures |cs| == |xs|
  {
    seq(|xs|, k requires 0 <= k < |xs| => ChunkAt(s, xs[k]))
  }

  predicate Transmitted(sent: seq<Chunk>, i: int)
  {
    exists k :: 0 <= k < |sent| && sent[k].index == i
  }

  /** The chunks of a file are nonempty exactly below the chunk count. */
  lemma ChunkNonempty(s: Source, i: int)
    requires SourceOk(s) && i >= 0
    ensures ChunkAt(s, i).payload != [] <==> i < s.manifest.totalChunks
    ensures s.manifest.totalChunks >= 0
  {
    ChunkInside(|s.file|, s.manifest.chunkSize, i);
    ChunkInside(|s.file|, s.manifest.chunkSize, 0);
    Product(i, s.manifest.chunkSize);
  }

  /** The first `n` chunks put together. */
  function Joined(s: Source, n: nat): (b: bytes)
    requires SourceOk(s)
  {
    if n == 0 then [] else Joined(s, n - 1) + ChunkAt(s, n - 1).payload
  }

  lemma {:induction false} JoinedPrefix(s: Source, n: nat)
    requires SourceOk(s) && n <= s.manifest.totalChunks
    ensures n * s.manifest.chunkSize <= |s.file| || n == s.manifest.totalChunks
    ensures Joined(s, n) == s.file[..if n * s.manifest.chunkSize < |s.file| then n * s.manifest.chunkSize else |s.file|]
  {
    if n > 0 {
      JoinedPrefix(s, n - 1);
      ChunkInside(|s.file|, s.manifest.chunkSize, n - 1);
      ChunkInside(|s.file|, s.manifest.chunkSize, n);
      Product(n - 1, s.manifest.chunkSize);
    }
  }

  /** Chunking loses nothing: the chunks in order are the file. */
  lemma ChunksAreTheFile(s: Source)
    requires SourceOk(s)
    ensures s.manifest.totalChunks >= 0 && Joined(s, s.manifest.totalChunks) == s.file
  {
    ChunkNonempty(s, 0);
    JoinedPrefix(s, s.manifest.totalChunks);
    ChunkInside(|s.file|, s.manifest.chunkSize, s.manifest.totalChunks);
  }

  // ---------------------------------------------------------------- what is encoded, and how a call ends

  /** How a call ends: as it should, aborted at a stop request, or by an error. */
  datatype Ending = Done | Aborted | Raised

  /** `encode_data_chunk` accepts the chunk. */
  predicate Encodes(c: Chunk)
  {
    Encode(DataMsg(c)).Ok?
  }

  ghost predicate AllEncode(cs: seq<Chunk>)
  {
    forall k :: 0 <= k < |cs| ==> Encodes(cs[k])
  }

  /** What goes out of a list of chunks: all of it, or the chunks before the first that is refused. */
  ghost predicate UpToRefusal(sent: seq<Chunk>, all: seq<Chunk>)
  {
    sent <= all && AllEncode(sent) && (|sent| < |all| ==> !Encodes(all[|sent|]))
  }

  lemma UpToRefusalIff(sent: seq<Chunk>, all: seq<Chunk>)
    requires UpToRefusal(sent, all)
    ensures |sent| == |all| <==> AllEncode(all)
    ensures AllEncode(all) ==> sent == all
  {
    hide Encodes;
  }

  /** A chunk of the file is refused exactly when it is longer than 65535 octets or its index does not fit 32 bits. */
  lemma EncodesIff(s: Source, i: int)
    requires SourceOk(s) && 0 <= i < s.manifest.totalChunks
    ensures Encodes(ChunkAt(s, i)) <==> Carried(MAX_PAYLOAD, s.manifest.fileSize, s.manifest.chunkSize, i) && Fits(i, 4)
  {
    ChunkInside(s.manifest.fileSize, s.manifest.chunkSize, i);
    Product(i, s.manifest.chunkSize);
    ChunkEncodes(ChunkAt(s, i));
    hide EncodeChunk;
  }

  ghost predicate FileEncodes(s: Source)
    requires SourceOk(s)
  {
    forall i :: 0 <= i < s.manifest.totalChunks ==> Encodes(ChunkAt(s, i))
  }

  /** A whole file can be sent exactly when its chunk size, or all of it, fits a DATA frame, and the chunks can be
      numbered. */
  lemma FileEncodesIff(s: Source)
    requires SourceOk(s)
    ensures FileEncodes(s) <==> (s.manifest.chunkSize <= MAX_PAYLOAD || s.manifest.fileSize <= MAX_PAYLOAD)
                                && s.manifest.totalChunks <= 0x1_0000_0000
  {
    var m := s.manifest;
    ChunkNonempty(s, 0);
    Widths();
    AllCarriedIff(MAX_PAYLOAD, m.fileSize, m.chunkSize);
    forall i | 0 <= i < m.totalChunks
      ensures Encodes(ChunkAt(s, i)) <==> Carried(MAX_PAYLOAD, m.fileSize, m.chunkSize, i) && Fits(i, 4)
    {
      EncodesIff(s, i);
    }
    hide Carried, Encodes;
    if m.totalChunks > 0x1_0000_0000 {
      assert !Fits(0x1_0000_0000, 4);
    }
  }

  /** In a file of more than 65535 octets with a larger chunk size, every chunk but a short last one is refused. */
  lemma LargeChunkIsRefused(s: Source, i: int)
    requires SourceOk(s) && s.manifest.chunkSize > MAX_PAYLOAD
    requires 0 <= i && (i + 1) * s.manifest.chunkSize <= s.manifest.fileSize
    ensures i < s.manifest.totalChunks && !Encodes(ChunkAt(s, i))
  {
    ChunkInside(s.manifest.fileSize, s.manifest.chunkSize, i);
    EncodesIff(s, i);
  }

  // ---------------------------------------------------------------- the open loop

  /** The fields of `SenderConfig` that decide what an open-loop send leaves out, and the coin thrown for each chunk. */
  datatype DropConfig = DropConfig(everyNth: int, coin: nat -> bool, tailChunks: int)

  predicate Drops(c: DropConfig, i: nat)
  {
    (c.everyNth > 0 && (i + 1) % c.everyNth == 0) || c.coin(i)
  }

  /** The indexes below `n` that the initial pass does not drop. */
  function Passed(c: DropConfig, n: nat): (xs: seq<int>)
    ensures forall k :: 0 <= k < |xs| ==> 0 <= xs[k] < n && !Drops(c, xs[k])
  {
    if n == 0 then [] else Passed(c, n - 1) + (if Drops(c, n - 1) then [] else [n - 1])
  }

  lemma {:induction false} PassedMember(c: DropConfig, n: nat, i: nat)
    requires i < n && !Drops(c, i)
    ensures i in Passed(c, n)
  {
    if i < n - 1 {
      PassedMember(c, n - 1, i);
    }
  }

  ghost function DroppedBelow(c: DropConfig, n: nat): (s: set<int>)
  {
    set i | 0 <= i < n && Drops(c, i)
  }

  /** The outside decisions of a send, by chunk: whether a stop is asked for before it, whether its send goes through, and
      whether METADATA falls due again after it. */
  datatype Fate = Fate(stop: nat -> bool, goes: nat -> bool, due: nat -> bool)

  /** What becomes of chunk `i` in a pass; `Done` lets the pass go on.  The chunk is encoded before its send. */
  function ChunkEnding(s: Source, i: nat, stop: bool, drops: bool, goes: bool): (e: Ending)
    requires SourceOk(s)
  {
    if stop then Aborted
    else if drops then Done
    else if !Encodes(ChunkAt(s, i)) then Raised
    else if goes then Done else Aborted
  }

  function StreamAt(s: Source, c: DropConfig, fate: Fate, i: nat): (e: Ending)
    requires SourceOk(s)
  {
    ChunkEnding(s, i, fate.stop(i), Drops(c, i), fate.goes(i))
  }

  /** The same with the periodic METADATA after a chunk that was sent: encoded when due. */
  function PassAt(s: Source, c: DropConfig, fate: Fate, i: nat): (e: Ending)
    requires SourceOk(s)
  {
    if StreamAt(s, c, fate, i).Done? && !Drops(c, i) && fate.due(i) && Encode(MetadataMsg(s.manifest)).Err? then Raised
    else StreamAt(s, c, fate, i)
  }

  /** The METADATA frames before the stream: all of them, or a stop, or the encoder's error. */
  method SendMetadataRepeats(s: Source, repeats: int, fate: Fate) returns (announced: nat, ending: Ending)
    ensures ending.Raised? <==> repeats > 0 && !fate.stop(0) && Encode(MetadataMsg(s.manifest)).Err?
    ensures ending.Done? <==> announced >= repeats
    ensures repeats > 0 ==> announced <= repeats
    ensures announced > 0 ==> Encode(MetadataMsg(s.manifest)).Ok?
    ensures forall i :: 0 <= i < announced ==> !fate.stop(i) && fate.goes(i)
    ensures ending.Aborted? ==>
              fate.stop(announced) || (Encode(MetadataMsg(s.manifest)).Ok? && !fate.goes(announced))
  {
    hide Encode;
    announced := 0;
    while announced < repeats
      invariant repeats > 0 ==> announced <= repeats
      invariant announced > 0 ==> Encode(MetadataMsg(s.manifest)).Ok?
      invariant forall i :: 0 <= i < announced ==> !fate.stop(i) && fate.goes(i)
    {
      if fate.stop(announced) {
        return announced, Aborted;
      }
      var raw := Encode(MetadataMsg(s.manifest));
      if raw.Err? {
        return announced, Raised;
      }
      if !fate.goes(announced) {
        return announced, Aborted;
      }
      announced := announced + 1;
    }
    ending := Done;
  }

  /** Where a pass that has come to chunk `i` ends: at the first chunk that does not let it go on, or after the last. */
  ghost function Reached(s: Source, c: DropConfig, fate: Fate, i: nat): (n: nat)
    requires SourceOk(s)
    ensures i <= n && (i <= s.manifest.totalChunks ==> n <= s.manifest.totalChunks)
    ensures forall k :: i <= k < n ==> PassAt(s, c, fate, k) == Done
    ensures n < s.manifest.totalChunks ==> PassAt(s, c, fate, n) != Done
    decreases s.manifest.totalChunks - i
  {
    if i >= s.manifest.totalChunks || PassAt(s, c, fate, i) != Done then i else Reached(s, c, fate, i + 1)
  }

  /** A pass goes on over each chunk before which no stop is asked for and that is dropped, or is encoded and sent, with METADATA
      encoded if it falls due after it; it ends at the first other one, aborted by a stop or a blocked send, or with the
      encoder's error. */
  lemma PassEndsAt(s: Source, c: DropConfig, fate: Fate)
    requires SourceOk(s)
    ensures var n, total := Reached(s, c, fate, 0), s.manifest.totalChunks;
            && (forall k :: 0 <= k < n ==>
                  !fate.stop(k) && (Drops(c, k) || (Encodes(ChunkAt(s, k)) && fate.goes(k) && Renewed(s, fate, k))))
            && (n < total ==> fate.stop(n)
                              || (!Drops(c, n) && !(Encodes(ChunkAt(s, n)) && fate.goes(n) && Renewed(s, fate, n))))
            && (n < total ==> (PassAt(s, c, fate, n) == Aborted
                               <==> fate.stop(n) || (Encodes(ChunkAt(s, n)) && !fate.goes(n))))
  {
    hide Encodes, Encode, ChunkAt, Drops;
    var n := Reached(s, c, fate, 0);
    hide Reached;
    forall k | 0 <= k < n
      ensures !fate.stop(k) && (Drops(c, k) || (Encodes(ChunkAt(s, k)) && fate.goes(k) && Renewed(s, fate, k)))
    {
      assert PassAt(s, c, fate, k) == Done;
    }
  }

  /** METADATA does not fall due after the chunk, or can be encoded. */
  predicate Renewed(s: Source, fate: Fate, i: nat)
  {
    fate.due(i) ==> Encode(MetadataMsg(s.manifest)).Ok?
  }

  /** How many chunks a pass that ends at `n` has dealt with: also chunk `n` when only its METADATA was refused. */
  ghost function Dealt(s: Source, c: DropConfig, fate: Fate, n: nat): (k: nat)
    requires SourceOk(s)
  {
    if n < s.manifest.totalChunks && StreamAt(s, c, fate, n).Done? then n + 1 else n
  }

  /** The first pass over the file. */
  method InitialPass(s: Source, c: DropConfig, fate: Fate) returns (sent: seq<Chunk>, dropped: set<int>, ending: Ending)
    requires SourceOk(s)
    ensures var n := Reached(s, c, fate, 0);
            && n <= s.manifest.totalChunks && sent == ChunksAt(s, Passed(c, Dealt(s, c, fate, n)))
            && dropped == DroppedBelow(c, n)
            && ending == if n < s.manifest.totalChunks then PassAt(s, c, fate, n) else Done
  {
    hide Encodes, Encode;
    sent, dropped, ending := [], {}, Done;
    ChunkNonempty(s, 0);
    var chunkIndex: nat := 0;
    while chunkIndex < s.manifest.totalChunks
      invariant chunkIndex <= s.manifest.totalChunks
      invariant sent == ChunksAt(s, Passed(c, chunkIndex)) && dropped == DroppedBelow(c, chunkIndex)
      invariant Reached(s, c, fate, 0) == Reached(s, c, fate, chunkIndex)
    {
      ChunkNonempty(s, chunkIndex);
      var chunk := ChunkAt(s, chunkIndex);
      if fate.stop(chunkIndex) {
        ending := Aborted;
        return;
      }
      if chunk.payload != [] {
        if Drops(c, chunkIndex) {
          dropped := dropped + {chunkIndex};
        } else {
          if !Encodes(chunk) {
            ending := Raised;
            return;
          }
          if !fate.goes(chunkIndex) {
            ending := Aborted;
            return;
          }
          sent := sent + [chunk];
          if fate.due(chunkIndex) && Encode(MetadataMsg(s.manifest)).Err? {
            ending := Raised;
            return;
          }
        }
      }
      chunkIndex := chunkIndex + 1;
    }
  }

  function TailStart(c: DropConfig, total: int): (i: int)
  {
    if c.tailChunks <= 0 then total else if total - c.tailChunks < 0 then 0 else total - c.tailChunks
  }

  /** `_send_tail_redundancy`. */
  method SendTailRedundancy(s: Source, c: DropConfig, goes: nat -> bool) returns (resent: seq<Chunk>, ending: Ending)
    requires SourceOk(s)
    ensures var total := s.manifest.totalChunks;
            var few := if c.tailChunks <= 0 then 0 else if c.tailChunks < total then c.tailChunks else total;
            var start := total - few;
            && 0 <= start && |resent| <= few && (ending.Done? <==> |resent| == few)
            && (forall k :: 0 <= k < |resent| ==> resent[k] == ChunkAt(s, start + k))
            && (forall i :: start <= i < start + |resent| ==> ChunkEnding(s, i, false, false, goes(i)) == Done)
            && (|resent| < few ==> ending == ChunkEnding(s, start + |resent|, false, false, goes(start + |resent|)))
    ensures 0 <= TailStart(c, s.manifest.totalChunks)
    ensures var start := TailStart(c, s.manifest.totalChunks); resent == ChunksAt(s, Indexes(start, start + |resent|))
  {
    hide Encodes;
    resent, ending := [], Done;
    ChunkNonempty(s, 0);
    if c.tailChunks <= 0 || s.manifest.totalChunks <= 0 {
      return;
    }
    var start := TailStart(c, s.manifest.totalChunks);
    var chunkIndex := start;
    while chunkIndex < s.manifest.totalChunks
      invariant start <= chunkIndex <= s.manifest.totalChunks
      invariant resent == ChunksAt(s, Indexes(start, chunkIndex))
      invariant forall i :: start <= i < chunkIndex ==> ChunkEnding(s, i, false, false, goes(i)) == Done
    {
      ChunkNonempty(s, chunkIndex);
      var chunk := ChunkAt(s, chunkIndex);
      if chunk.payload != [] {
        if !Encodes(chunk) {
          return resent, Raised;
        }
        if !goes(chunkIndex) {
          return resent, Aborted;
        }
        resent := resent + [chunk];
      }
      chunkIndex := chunkIndex + 1;
    }
  }

  ghost predicate FromSource(s: Source, sent: seq<Chunk>)
    requires SourceOk(s)
  {
    forall k :: 0 <= k < |sent| ==>
      0 <= sent[k].index < s.manifest.totalChunks && sent[k] == ChunkAt(s, sent[k].index)
  }

  lemma ListFromSource(s: Source, xs: seq<int>)
    requires SourceOk(s) && forall k :: 0 <= k < |xs| ==> 0 <= xs[k] < s.manifest.totalChunks
    ensures FromSource(s, ChunksAt(s, xs))
  {
  }

  /** Nothing outside stops the call or blocks a send for good. */
  ghost predicate Undisturbed(fate: Fate)
  {
    forall i: nat :: !fate.stop(i) && fate.goes(i)
  }

  ghost predicate PassEncodes(s: Source, c: DropConfig)
    requires SourceOk(s)
  {
    forall i: nat :: i < s.manifest.totalChunks && !Drops(c, i) ==> Encodes(ChunkAt(s, i))
  }

  /** A pass that drops nothing is accepted exactly when the whole file is. */
  lemma FullPassIff(s: Source, c: DropConfig)
    requires SourceOk(s) && forall i: nat :: !Drops(c, i)
    ensures PassEncodes(s, c) <==> (s.manifest.chunkSize <= MAX_PAYLOAD || s.manifest.fileSize <= MAX_PAYLOAD)
                                   && s.manifest.totalChunks <= 0x1_0000_0000
  {
    FileEncodesIff(s);
    hide Drops, Encodes, ChunkAt;
  }

  ghost predicate TailEncodes(s: Source, c: DropConfig)
    requires SourceOk(s)
  {
    forall i: nat :: TailStart(c, s.manifest.totalChunks) <= i < s.manifest.totalChunks ==> Encodes(ChunkAt(s, i))
  }

  /** METADATA falls due after some chunk that the pass sends. */
  ghost predicate Renews(s: Source, c: DropConfig, fate: Fate)
  {
    exists i: nat :: i < s.manifest.totalChunks && !Drops(c, i) && fate.due(i)
  }

  /** What a pass encodes is accepted: each chunk that it does not drop, and METADATA when it falls due. */
  ghost predicate PassGoes(s: Source, c: DropConfig, fate: Fate)
    requires SourceOk(s)
  {
    PassEncodes(s, c) && (Renews(s, c, fate) ==> Encode(MetadataMsg(s.manifest)).Ok?)
  }

  /** What an open-loop send encodes is accepted: its METADATA before the pass, the pass, and each chunk sent again. */
  ghost predicate SendsEncode(s: Source, c: DropConfig, repeats: int, sendInitialData: bool, fate: Fate)
    requires SourceOk(s)
  {
    && (repeats > 0 ==> Encode(MetadataMsg(s.manifest)).Ok?)
    && (sendInitialData ==> PassGoes(s, c, fate) && TailEncodes(s, c))
  }

  /** Every chunk that the pass leaves out is one of the last `tailChunks`. */
  ghost predicate DropsInTail(c: DropConfig, total: int)
  {
    forall i: nat | i < total && Drops(c, i) :: i >= total - c.tailChunks
  }

  /** The pass leaves out every n-th chunk, counted from 1, and those for which the coin says so. */
  lemma DropsIff(c: DropConfig, i: nat)
    ensures Drops(c, i) <==> c.coin(i) || (c.everyNth > 0 && exists k: nat :: i + 1 == k * c.everyNth)
  {
    if c.everyNth > 0 {
      var q := (i + 1) / c.everyNth;
      assert i + 1 == q * c.everyNth + (i + 1) % c.everyNth;
      if k: nat :| i + 1 == k * c.everyNth {
        MultipleIs(i + 1, c.everyNth, k);
      }
    }
  }

  lemma MultipleIs(v: nat, n: nat, k: nat)
    requires n > 0 && v == k * n
    ensures v % n == 0
  {
    var q := v / n;
    assert q * n <= v < q * n + n;
    NotMore(q + 1, k, n);
    NotMore(k + 1, q, n);
  }

  lemma NotMore(a: int, b: int, n: nat)
    requires n > 0
    ensures a <= b ==> a * n <= b * n
  {
    if a <= b {
      MulMono(a, b, n);
    }
  }

  /** `send_file` with feedback and discovery off.  When it ends as it should, its verdict is `completed` exactly when
      every chunk went out at least once in the initial pass or the tail resend, which is exactly when all that the pass left
      out is among the last `tailChunks` chunks; a call without initial data says `completed` for nothing sent.
      Undisturbed, it ends as it should exactly when all that it encodes is accepted, and otherwise with the encoder's
      error. */
  method SendOpenLoop(s: Source, c: DropConfig, repeats: int, announcing: Fate, sendInitialData: bool, fate: Fate,
                      tailGoes: nat -> bool)
    returns (sent: seq<Chunk>, completed: bool, ending: Ending)
    requires SourceOk(s)
    ensures !ending.Done? ==> !completed
    ensures ending.Done? && sendInitialData ==>
              (completed <==> forall i :: 0 <= i < s.manifest.totalChunks ==> Transmitted(sent, i))
    ensures ending.Done? && !sendInitialData ==> sent == [] && completed
    ensures ending.Done? && sendInitialData ==> (completed <==> DropsInTail(c, s.manifest.totalChunks))
    ensures FromSource(s, sent) && AllEncode(sent)
    ensures Undisturbed(announcing) && Undisturbed(fate) && (forall i :: tailGoes(i)) ==>
              ending == if SendsEncode(s, c, repeats, sendInitialData, fate) then Done else Raised
  {
    hide ChunksAt, Passed, Drops, Transmitted, ChunkAt, Encode, Encodes, PassGoes, TailEncodes, DropsInTail;
    ChunkNonempty(s, 0);
    if s.manifest.totalChunks == 0 {
      NothingToEncode(s, c, fate);
    }
    var announced;
    announced, ending := SendMetadataRepeats(s, repeats, announcing);
    if !ending.Done? {
      return [], false, ending;
    }
    if s.manifest.totalChunks == 0 {
      return [], true, Done;
    }
    var dropped: set<int> := {};
    sent := [];
    if sendInitialData {
      sent, dropped, ending := InitialPass(s, c, fate);
      ghost var reached := Reached(s, c, fate, 0);
      ListFromSource(s, Passed(c, Dealt(s, c, fate, reached)));
      PassedEncode(s, c, fate, reached);
      PassDecides(s, c, fate, reached, ending);
      if !ending.Done? {
        return sent, false, ending;
      }
      var resent;
      resent, ending := SendTailRedundancy(s, c, tailGoes);
      var start := TailStart(c, s.manifest.totalChunks);
      ListFromSource(s, Indexes(start, start + |resent|));
      ResentEncode(s, tailGoes, start, resent);
      if forall i :: tailGoes(i) {
        TailDecides(s, c, tailGoes, start, start + |resent|, ending);
      }
      ghost var passed := sent;
      sent := sent + resent;
      if !ending.Done? {
        return sent, false, ending;
      }
      var left := set i | i in dropped && !(start <= i < s.manifest.totalChunks);
      Verdict(s, c, passed, resent, left);
      LeftIff(c, s.manifest.totalChunks, left);
      dropped := left;
    }
    completed := dropped == {};
  }

  /** Undisturbed, a pass ends as it should exactly when what it encodes is accepted, else with the error. */
  lemma PassDecides(s: Source, c: DropConfig, fate: Fate, reached: nat, ending: Ending)
    requires SourceOk(s) && reached <= s.manifest.totalChunks && (ending.Done? <==> reached == s.manifest.totalChunks)
    requires forall i :: 0 <= i < reached ==> PassAt(s, c, fate, i) == Done
    requires reached < s.manifest.totalChunks ==> ending == PassAt(s, c, fate, reached)
    ensures Undisturbed(fate) ==> ending == if PassGoes(s, c, fate) then Done else Raised
  {
    hide Encodes, Encode, ChunkAt, Drops;
    if Undisturbed(fate) && ending.Done? {
      if Renews(s, c, fate) {
        var i: nat :| i < s.manifest.totalChunks && !Drops(c, i) && fate.due(i);
        assert PassAt(s, c, fate, i) == Done;
      }
      forall i: nat | i < s.manifest.totalChunks && !Drops(c, i) ensures Encodes(ChunkAt(s, i)) {
        assert PassAt(s, c, fate, i) == Done;
      }
    }
  }

  lemma TailDecides(s: Source, c: DropConfig, goes: nat -> bool, start: nat, reached: nat, ending: Ending)
    requires SourceOk(s) && start == TailStart(c, s.manifest.totalChunks) && start <= reached <= s.manifest.totalChunks
    requires forall i :: goes(i)
    requires ending.Done? <==> reached == s.manifest.totalChunks
    requires forall i :: start <= i < reached ==> ChunkEnding(s, i, false, false, goes(i)) == Done
    requires reached < s.manifest.totalChunks ==> ending == ChunkEnding(s, reached, false, false, goes(reached))
    ensures ending == if TailEncodes(s, c) then Done else Raised
  {
    hide Encodes, ChunkAt;
    if ending.Done? {
      forall i: nat | start <= i < s.manifest.totalChunks ensures Encodes(ChunkAt(s, i)) {
        assert ChunkEnding(s, i, false, false, goes(i)) == Done;
      }
    }
  }

  lemma NothingToEncode(s: Source, c: DropConfig, fate: Fate)
    requires SourceOk(s) && s.manifest.totalChunks == 0
    ensures PassGoes(s, c, fate) && TailEncodes(s, c) && DropsInTail(c, 0)
  {
  }

  lemma PassedEncode(s: Source, c: DropConfig, fate: Fate, n: nat)
    requires SourceOk(s) && forall i :: 0 <= i < n ==> PassAt(s, c, fate, i) == Done
    ensures AllEncode(ChunksAt(s, Passed(c, Dealt(s, c, fate, n))))
  {
    hide Encodes, Encode, ChunkAt;
    var xs := Passed(c, Dealt(s, c, fate, n));
    forall k | 0 <= k < |xs| ensures Encodes(ChunksAt(s, xs)[k]) {
      assert xs[k] == n || PassAt(s, c, fate, xs[k]) == Done;
    }
  }

  lemma ResentEncode(s: Source, goes: nat -> bool, start: nat, resent: seq<Chunk>)
    requires SourceOk(s) && resent == ChunksAt(s, Indexes(start, start + |resent|))
    requires forall i :: start <= i < start + |resent| ==> ChunkEnding(s, i, false, false, goes(i)) == Done
    ensures AllEncode(resent)
  {
    hide Encodes, ChunkAt;
    forall k | 0 <= k < |resent| ensures Encodes(resent[k]) {
      assert ChunkEnding(s, start + k, false, false, goes(start + k)) == Done;
    }
  }

  /** Nothing is left exactly when the drops are in the tail. */
  lemma LeftIff(c: DropConfig, total: nat, left: set<int>)
    requires left == set i | i in DroppedBelow(c, total) && !(TailStart(c, total) <= i < total)
    ensures left == {} <==> DropsInTail(c, total)
  {
    hide Drops;
    if !DropsInTail(c, total) {
      var i: nat :| i < total && Drops(c, i) && i < total - c.tailChunks;
      assert i in DroppedBelow(c, total) && i in left;
    }
  }

  lemma DroppedIsBelow(c: DropConfig, n: nat, i: int)
    requires i in DroppedBelow(c, n)
    ensures 0 <= i < n && Drops(c, i)
  {
  }

  lemma Verdict(s: Source, c: DropConfig, sent: seq<Chunk>, resent: seq<Chunk>, left: set<int>)
    requires SourceOk(s) && s.manifest.totalChunks > 0
    requires sent == ChunksAt(s, Passed(c, s.manifest.totalChunks))
    requires 0 <= TailStart(c, s.manifest.totalChunks)
    requires resent == ChunksAt(s, Indexes(TailStart(c, s.manifest.totalChunks), s.manifest.totalChunks))
    requires left == set i | i in DroppedBelow(c, s.manifest.totalChunks)
                             && !(TailStart(c, s.manifest.totalChunks) <= i < s.manifest.totalChunks)
    ensures left == {} <==> forall i :: 0 <= i < s.manifest.totalChunks ==> Transmitted(sent + resent, i)
  {
    WentOut(s, c, sent, resent);
    hide ChunksAt, Passed, Transmitted, Drops;
    var total, start := s.manifest.totalChunks, TailStart(c, s.manifest.totalChunks);
    hide DroppedBelow, TailStart;
    forall i | 0 <= i < total ensures Transmitted(sent + resent, i) <==> i !in left {
      assert i in left <==> i in DroppedBelow(c, total) && !(start <= i < total);
    }
    if left != {} {
      var i :| i in left;
      DroppedIsBelow(c, total, i);
      assert !Transmitted(sent + resent, i);
    }
  }

  /** What the two passes transmitted: everything but the drops before the tail. */
  lemma WentOut(s: Source, c: DropConfig, sent: seq<Chunk>, resent: seq<Chunk>)
    requires SourceOk(s) && s.manifest.totalChunks > 0
    requires sent == ChunksAt(s, Passed(c, s.manifest.totalChunks))
    requires 0 <= TailStart(c, s.manifest.totalChunks)
    requires resent == ChunksAt(s, Indexes(TailStart(c, s.manifest.totalChunks), s.manifest.totalChunks))
    ensures forall i :: 0 <= i < s.manifest.totalChunks ==>
              (Transmitted(sent + resent, i) <==>
               i !in DroppedBelow(c, s.manifest.totalChunks) || i >= TailStart(c, s.manifest.totalChunks))
  {
    var total, start := s.manifest.totalChunks, TailStart(c, s.manifest.totalChunks);
    var xs, tail := Passed(c, total), Indexes(start, total);
    var all := sent + resent;
    forall i | 0 <= i < total
      ensures Transmitted(all, i) <==> i !in DroppedBelow(c, total) || i >= start
    {
      if i >= start {
        assert all[|sent| + (i - start)].index == i;
      } else if !Drops(c, i) {
        PassedMember(c, total, i);
        var k :| 0 <= k < |xs| && xs[k] == i;
        assert all[k].index == i;
      } else {
        forall k | 0 <= k < |all| ensures all[k].index != i {
          if k < |sent| {
            assert all[k].index == xs[k];
          } else {
            assert all[k].index == tail[k - |sent|];
          }
        }
      }
    }
  }

  // ---------------------------------------------------------------- servicing a request

  /** The status a datagram brings for this transfer, if any. */
  function StatusFor(m: Manifest, raw: bytes): (s: Option<Status>)
  {
    match Decode(raw)
    case Ok(StatusMsg(s)) => if s.kind.TRANSFER? && s.id == m.id then Some(s) else None
    case _ => None
  }

  predicate Says(m: Manifest, raw: bytes, state: TransferState)
  {
    StatusFor(m, raw).Some? && StatusFor(m, raw).value.state == state
  }

  /** The ranges a datagram asks for: those of an INCOMPLETE status. */
  function Asked(m: Manifest, raw: bytes): (rs: seq<Range>)
  {
    if Says(m, raw, INCOMPLETE) then StatusFor(m, raw).value.missing else []
  }

  ghost predicate Askable(rs: seq<Range>)
  {
    Canonical(rs) && forall x :: x in Elems(rs) ==> x >= 0
  }

  lemma ParsedRanges(payload: bytes)
    requires ParseRanges(payload).Ok?
    ensures Askable(ParseRanges(payload).value)
  {
    var wire := WireRanges(payload);
    MergedMeaning(wire);
    forall k | 0 <= k < |wire| ensures wire[k].start < wire[k].end {
    }
    forall x | x in Elems(wire) ensures x >= 0 {
      var k :| 0 <= k < |wire| && Hit(wire[k], x);
    }
  }

  /** A decoded request is in normal form and names no negative index. */
  lemma AskedIsAskable(m: Manifest, raw: bytes)
    ensures Askable(Asked(m, raw))
  {
    assert Askable([]) by {
      assert Elems([]) == {};
    }
    if Says(m, raw, INCOMPLETE) {
      var payload := ParseFrame(raw).value.payload;
      ParsedRanges(payload[20..]);
    }
  }

  lemma {:induction false} ServicedMember(xs: seq<int>, total: nat, n: nat)
    requires n <= |xs| && forall k :: 0 <= k < |xs| ==> xs[k] >= 0
    ensures |Serviced(xs, total, n)| <= n
    ensures forall k :: 0 <= k < |Serviced(xs, total, n)| ==> 0 <= Serviced(xs, total, n)[k] < total
  {
    if n > 0 {
      ServicedMember(xs, total, n - 1);
    }
  }

  /** The indexes a request is answered with. */
  function Answer(s: Source, missing: seq<Range>): (xs: seq<int>)
    requires s.manifest.totalChunks >= 0
  {
    Serviced(Expand(missing), s.manifest.totalChunks, |Expand(missing)|)
  }

  lemma ExpandedAskable(missing: seq<Range>)
    requires Askable(missing)
    ensures forall k :: 0 <= k < |Expand(missing)| ==> Expand(missing)[k] >= 0
  {
    ExpandMeaning(missing);
    forall k | 0 <= k < |Expand(missing)| ensures Expand(missing)[k] >= 0 {
      assert Expand(missing)[k] in Elems(missing);
    }
  }

  lemma AnswerFits(s: Source, missing: seq<Range>)
    requires SourceOk(s) && s.manifest.totalChunks >= 0 && Askable(missing)
    ensures |Answer(s, missing)| <= |Expand(missing)|
    ensures forall k :: 0 <= k < |Answer(s, missing)| ==> 0 <= Answer(s, missing)[k] < s.manifest.totalChunks
  {
    ExpandedAskable(missing);
    ServicedMember(Expand(missing), s.manifest.totalChunks, |Expand(missing)|);
  }

  /** The chunks of an answer. */
  ghost function Answered(s: Source, missing: seq<Range>): (cs: seq<Chunk>)
    requires SourceOk(s) && Askable(missing)
  {
    ChunkNonempty(s, 0);
    AnswerFits(s, missing);
    ChunksAt(s, Answer(s, missing))
  }

  /** `_send_requested_repairs`: every requested chunk of the file, in order, and nothing else, up to one that the encoder
      refuses. */
  method SendRequestedRepairs(s: Source, missing: seq<Range>) returns (sent: seq<Chunk>, raised: bool)
    requires SourceOk(s) && Askable(missing)
    ensures UpToRefusal(sent, Answered(s, missing))
    ensures raised <==> !AllEncode(Answered(s, missing))
    ensures |sent| <= |Expand(missing)| && FromSource(s, sent)
  {
    hide Encodes;
    ChunkNonempty(s, 0);
    AnswerFits(s, missing);
    ListFromSource(s, Answer(s, missing));
    var indexes := ExpandRanges(missing);
    ExpandedAskable(missing);
    ghost var all := Answered(s, missing);
    sent, raised := [], false;
    for k := 0 to |indexes|
      invariant forall j :: 0 <= j < |Serviced(indexes, s.manifest.totalChunks, k)| ==>
                  Serviced(indexes, s.manifest.totalChunks, k)[j] >= 0
      invariant sent == ChunksAt(s, Serviced(indexes, s.manifest.totalChunks, k)) && AllEncode(sent)
    {
      var chunkIndex := indexes[k];
      if chunkIndex < s.manifest.totalChunks {
        ChunkNonempty(s, chunkIndex);
        var chunk := ChunkAt(s, chunkIndex);
        if chunk.payload != [] {
          ServicedPrefix(indexes, s.manifest.totalChunks, k + 1);
          if !Encodes(chunk) {
            assert all[|sent|] == chunk;
            return sent, true;
          }
          sent := sent + [chunk];
        }
      }
    }
  }

  lemma {:induction false} ServicedPrefix(xs: seq<int>, total: nat, n: nat)
    requires n <= |xs|
    ensures Serviced(xs, total, n) <= Serviced(xs, total, |xs|)
    decreases |xs| - n
  {
    if n < |xs| {
      ServicedPrefix(xs, total, n + 1);
    }
  }

  // ---------------------------------------------------------------- what the sender's state machine hears

  /** The endpoint of `System` after the first `n` datagrams of a list. */
  function Heard(e: Endpoint, inbox: seq<bytes>, n: nat): (f: Endpoint)
    requires n <= |inbox|
  {
    if n == 0 then e else OnDatagram(Heard(e, inbox, n - 1), inbox[n - 1])
  }

  lemma HeardOne(e: Endpoint, raw: bytes)
    ensures OnDatagram(e, raw)
         == if StatusFor(e.manifest, raw).Some?
            then e.(phase := OnStatus(e.phase, StatusFor(e.manifest, raw).value.state)) else e
  {
    hide Decode;
  }

  /** No datagram of the first `n` says COMPLETE. */
  predicate NotComplete(m: Manifest, inbox: seq<bytes>, n: nat)
    requires n <= |inbox|
  {
    forall k :: 0 <= k < n ==> !Says(m, inbox[k], COMPLETE)
  }

  /** The chunks and rounds of a drain after the first `n` datagrams. */
  ghost function Drained(s: Source, inbox: seq<bytes>, maxChunks: int, n: nat): (r: (seq<Chunk>, nat))
    requires SourceOk(s) && n <= |inbox|
  {
    if n == 0 then ([], 0)
    else
      var (sent, rounds) := Drained(s, inbox, maxChunks, n - 1);
      var asked := Asked(s.manifest, inbox[n - 1]);
      if asked == [] then (sent, rounds)
      else
        BudgetedIsAskable(s.manifest, inbox[n - 1], maxChunks, |sent|);
        (sent + Answered(s, Budgeted(asked, maxChunks, |sent|)), rounds + 1)
  }

  /** How many of the first `n` datagrams ask for chunks. */
  function Requests(m: Manifest, inbox: seq<bytes>, n: nat): (k: nat)
    requires n <= |inbox|
  {
    if n == 0 then 0 else Requests(m, inbox, n - 1) + (if Asked(m, inbox[n - 1]) != [] then 1 else 0)
  }

  /** A drain counts a round for every request, and answers it with the chunks that its budget still covers. */
  lemma {:induction false} DrainedCounts(s: Source, inbox: seq<bytes>, maxChunks: int, n: nat)
    requires SourceOk(s) && n <= |inbox|
    ensures Drained(s, inbox, maxChunks, n).1 == Requests(s.manifest, inbox, n)
    ensures n > 0 ==>
              var before, asked := Drained(s, inbox, maxChunks, n - 1).0, Asked(s.manifest, inbox[n - 1]);
              && Askable(Budgeted(asked, maxChunks, |before|))
              && Drained(s, inbox, maxChunks, n).0
                 == before + (if asked == [] then [] else Answered(s, Budgeted(asked, maxChunks, |before|)))
  {
    hide Asked, Answered, Budgeted, Askable;
    if n > 0 {
      DrainedCounts(s, inbox, maxChunks, n - 1);
      var before := Drained(s, inbox, maxChunks, n - 1).0;
      BudgetedIsAskable(s.manifest, inbox[n - 1], maxChunks, |before|);
      assert before + [] == before;
    }
  }

  /** The part of a request that the budget of a drain still covers. */
  function Budgeted(asked: seq<Range>, maxChunks: int, repaired: int): (rs: seq<Range>)
  {
    if maxChunks <= 0 then asked else Limited(asked, maxChunks - repaired)
  }

  lemma BudgetedIsAskable(m: Manifest, raw: bytes, maxChunks: int, repaired: int)
    ensures var rs := Budgeted(Asked(m, raw), maxChunks, repaired);
            && Askable(rs)
            && (0 <= repaired <= maxChunks && maxChunks > 0 ==> repaired + |Expand(rs)| <= maxChunks)
  {
    hide Asked, Limited, Elems, Canonical, Expand;
    AskedIsAskable(m, raw);
    var asked := Asked(m, raw);
    LimitedMeaning(asked, maxChunks - repaired);
    ExpandMeaning(Limited(asked, maxChunks - repaired));
  }

  /** A STATUS frame whose payload does not decode: `decode_status` raises, and none of the loops catches it. */
  predicate Malformed(raw: bytes)
  {
    var f := ParseFrame(raw);
    f.Ok? && f.value.known == Some(STATUS) && ParseStatus(f.value.payload).Err?
  }

  lemma MalformedSaysNothing(m: Manifest, raw: bytes)
    requires Malformed(raw)
    ensures StatusFor(m, raw).None? && Asked(m, raw) == []
  {
    hide ParseStatus;
  }

  /** Datagram `k` of a drain ends it with an error: it is malformed, or a chunk it asks for is refused. */
  ghost predicate DrainFails(s: Source, inbox: seq<bytes>, maxChunks: int, k: nat)
    requires SourceOk(s) && k < |inbox|
  {
    Malformed(inbox[k])
    || (AllEncode(Drained(s, inbox, maxChunks, k).0) && !AllEncode(Drained(s, inbox, maxChunks, k + 1).0))
  }

  /** A drain that has taken `k` datagrams ends there: no more have come, a bound is reached, or the last one says COMPLETE
      or fails. */
  ghost predicate DrainOver(s: Source, inbox: seq<bytes>, maxRounds: int, maxChunks: int, k: nat)
    requires SourceOk(s) && k <= |inbox|
  {
    || k == |inbox|
    || (maxRounds > 0 && Drained(s, inbox, maxChunks, k).1 >= maxRounds)
    || (maxChunks > 0 && |Drained(s, inbox, maxChunks, k).0| >= maxChunks)
    || (k > 0 && (Says(s.manifest, inbox[k - 1], COMPLETE) || DrainFails(s, inbox, maxChunks, k - 1)))
  }

  /** `_drain_repair_requests`: answers what has arrived, up to where it ends; complete exactly when the last datagram it
      took says COMPLETE, and ended by an error exactly when that one fails. */
  method DrainRepairRequests(s: Source, inbox: seq<bytes>, maxRounds: int, maxChunks: int)
    returns (sent: seq<Chunk>, rounds: nat, completed: bool, raised: bool, consumed: nat)
    requires SourceOk(s)
    ensures consumed <= |inbox| && UpToRefusal(sent, Drained(s, inbox, maxChunks, consumed).0)
    ensures DrainOver(s, inbox, maxRounds, maxChunks, consumed)
    ensures forall k :: 0 <= k < consumed ==> !DrainOver(s, inbox, maxRounds, maxChunks, k)
    ensures raised <==> consumed > 0 && DrainFails(s, inbox, maxChunks, consumed - 1)
    ensures !raised ==> (sent, rounds) == Drained(s, inbox, maxChunks, consumed)
    ensures maxRounds > 0 ==> rounds <= maxRounds
    ensures maxChunks > 0 ==> |sent| <= maxChunks
    ensures completed ==> consumed > 0 && Says(s.manifest, inbox[consumed - 1], COMPLETE)
                          && NotComplete(s.manifest, inbox, consumed - 1)
    ensures !completed ==> NotComplete(s.manifest, inbox, consumed)
    ensures consumed < |inbox| ==>
              completed || raised || (maxRounds > 0 && rounds == maxRounds) || (maxChunks > 0 && |sent| == maxChunks)
    ensures FromSource(s, sent)
  {
    hide Malformed, Encodes, StatusFor, Limited, Answered, ChunkAt;
    sent, rounds, completed, raised, consumed := [], 0, false, false, 0;
    while consumed < |inbox|
      invariant consumed <= |inbox| && (sent, rounds) == Drained(s, inbox, maxChunks, consumed) && AllEncode(sent)
      invariant forall k :: 0 <= k < consumed ==> !DrainFails(s, inbox, maxChunks, k)
      invariant forall k :: 0 <= k < consumed ==> !DrainOver(s, inbox, maxRounds, maxChunks, k)
      invariant maxRounds > 0 ==> rounds <= maxRounds
      invariant maxChunks > 0 ==> |sent| <= maxChunks
      invariant NotComplete(s.manifest, inbox, consumed) && FromSource(s, sent)
    {
      if maxRounds > 0 && rounds >= maxRounds {
        break;
      }
      if maxChunks > 0 && |sent| >= maxChunks {
        break;
      }
      var raw := inbox[consumed];
      consumed := consumed + 1;
      if Malformed(raw) {
        MalformedSaysNothing(s.manifest, raw);
        raised := true;
        break;
      }
      if Says(s.manifest, raw, COMPLETE) {
        completed := true;
        break;
      }
      var asked := Asked(s.manifest, raw);
      if asked == [] {
        continue;
      }
      BudgetedIsAskable(s.manifest, raw, maxChunks, |sent|);
      var repaired;
      repaired, raised := SendRequestedRepairs(s, Budgeted(asked, maxChunks, |sent|));
      AfterRefusal(sent, repaired, Answered(s, Budgeted(asked, maxChunks, |sent|)));
      sent := sent + repaired;
      if raised {
        break;
      }
      rounds := rounds + 1;
    }
  }

  lemma AfterRefusal(before: seq<Chunk>, sent: seq<Chunk>, all: seq<Chunk>)
    requires AllEncode(before) && UpToRefusal(sent, all)
    ensures UpToRefusal(before + sent, before + all) && (AllEncode(before + all) <==> AllEncode(all))
    ensures AllEncode(all) ==> sent == all
  {
    hide Encodes;
    UpToRefusalIff(sent, all);
    assert forall k :: 0 <= k < |all| ==> (before + all)[|before| + k] == all[k];
    assert before + sent <= before + all;
    if |sent| < |all| {
      assert (before + all)[|before + sent|] == all[|sent|];
    }
  }

  lemma {:induction false} DrainIsHeard(e: Endpoint, inbox: seq<bytes>, n: nat)
    requires n <= |inbox| && e.phase.Streaming? && !e.phase.pumping
    ensures Heard(e, inbox, n).manifest == e.manifest
    ensures Heard(e, inbox, n).phase
         == Streaming(false, e.phase.signal || !NotComplete(e.manifest, inbox, n))
  {
    hide StatusFor;
    if n > 0 {
      DrainIsHeard(e, inbox, n - 1);
      HeardOne(Heard(e, inbox, n - 1), inbox[n - 1]);
      assert NotComplete(e.manifest, inbox, n)
        <==> NotComplete(e.manifest, inbox, n - 1) && !Says(e.manifest, inbox[n - 1], COMPLETE);
    }
  }

  /** A pump that has taken `k` datagrams ends there. */
  predicate PumpOver(m: Manifest, inbox: seq<bytes>, k: nat)
    requires k <= |inbox|
  {
    || k == |inbox|
    || (k > 0 && (Malformed(inbox[k - 1]) || Says(m, inbox[k - 1], COMPLETE) || Says(m, inbox[k - 1], HASH_MISMATCH)))
  }

  /** The receive pump of the parallel repairs: it ends at COMPLETE or at HASH_MISMATCH, and at a malformed STATUS, whose
      error ends only its own thread. */
  method ReceivePump(m: Manifest, inbox: seq<bytes>) returns (completed: bool, consumed: nat)
    ensures consumed <= |inbox|
    ensures var heard := Heard(Endpoint(m, Streaming(true, false)), inbox, consumed);
            heard.manifest == m && heard.phase.Streaming? && heard.phase.signal == completed
    ensures PumpOver(m, inbox, consumed) && forall k :: 0 <= k < consumed ==> !PumpOver(m, inbox, k)
    ensures completed <==> !NotComplete(m, inbox, consumed)
    ensures forall k :: 0 <= k < consumed ==> Heard(Endpoint(m, Streaming(true, false)), inbox, k).phase == Streaming(true, false)
    ensures consumed < |inbox| ==>
              || (consumed > 0 && Malformed(inbox[consumed - 1]))
              || Heard(Endpoint(m, Streaming(true, false)), inbox, consumed).phase != Streaming(true, false)
  {
    hide StatusFor, Malformed, OnDatagram;
    completed, consumed := false, 0;
    ghost var e := Endpoint(m, Streaming(true, false));
    while consumed < |inbox|
      invariant consumed <= |inbox| && Heard(e, inbox, consumed) == e
      invariant forall k :: 0 <= k < consumed ==> Heard(e, inbox, k) == e
      invariant consumed > 0 ==> !Malformed(inbox[consumed - 1]) && !Says(m, inbox[consumed - 1], COMPLETE)
                                 && !Says(m, inbox[consumed - 1], HASH_MISMATCH)
      invariant NotComplete(m, inbox, consumed) && forall k :: 0 <= k < consumed ==> !PumpOver(m, inbox, k)
    {
      var raw := inbox[consumed];
      HeardOne(e, raw);
      consumed := consumed + 1;
      if Malformed(raw) {
        MalformedSaysNothing(m, raw);
        return false, consumed;
      }
      if Says(m, raw, COMPLETE) {
        return true, consumed;
      }
      if Says(m, raw, HASH_MISMATCH) {
        return false, consumed;
      }
    }
  }

  // ---------------------------------------------------------------- the wait after the stream

  datatype WaitConfig = WaitConfig(maxRounds: int, maxIdle: int, suppression: real)

  /** One turn of the wait loop: what the outside decided and what arrived. */
  datatype Turn = Turn(now: real, exhausted: bool, stop: bool, idle: bool, resends: bool, arrival: Option<bytes>)

  /** What arrived in the first `n` turns. */
  function Arrivals(turns: seq<Turn>, n: nat): (a: seq<bytes>)
    requires n <= |turns|
  {
    if n == 0 then []
    else Arrivals(turns, n - 1) + (if turns[n - 1].arrival.Some? then [turns[n - 1].arrival.value] else [])
  }

  datatype Service = Service(sent: seq<Chunk>, rounds: nat, last: Option<seq<Range>>, lastTime: real)

  predicate Suppressed(w: WaitConfig, v: Service, asked: seq<Range>, now: real)
  {
    w.suppression > 0.0 && v.last == Some(asked) && now - v.lastTime < w.suppression
  }

  /** What arrives in a turn asks for. */
  function AskedIn(s: Source, turn: Turn): (rs: seq<Range>)
  {
    if turn.arrival.Some? then Asked(s.manifest, turn.arrival.value) else []
  }

  lemma AskedInIsAskable(s: Source, turn: Turn)
    ensures Askable(AskedIn(s, turn))
  {
    if turn.arrival.Some? {
      AskedIsAskable(s.manifest, turn.arrival.value);
    } else {
      assert Elems([]) == {};
    }
  }

  /** A turn services what it asks for, unless that is an immediate repetition of what was serviced last. */
  ghost function Served(s: Source, w: WaitConfig, v: Service, turn: Turn): (u: Service)
    requires SourceOk(s)
  {
    var asked := AskedIn(s, turn);
    if asked == [] || Suppressed(w, v, asked, turn.now) then v
    else
      AskedInIsAskable(s, turn);
      Service(v.sent + Answered(s, asked), v.rounds + 1, Some(asked), turn.now)
  }

  /** What the first `n` turns service. */
  ghost function Serving(s: Source, w: WaitConfig, turns: seq<Turn>, n: nat): (v: Service)
    requires SourceOk(s) && n <= |turns|
  {
    if n == 0 then Service([], 0, None, 0.0) else Served(s, w, Serving(s, w, turns, n - 1), turns[n - 1])
  }

  /** Turn `k` of the wait ends it with an error: what arrives is malformed, or a chunk it asks for is refused. */
  ghost predicate TurnFails(s: Source, w: WaitConfig, turns: seq<Turn>, k: nat)
    requires SourceOk(s) && k < |turns|
  {
    (turns[k].arrival.Some? && Malformed(turns[k].arrival.value))
    || (AllEncode(Serving(s, w, turns, k).sent) && !AllEncode(Serving(s, w, turns, k + 1).sent))
  }

  /** The METADATA that an idle turn sends again cannot be encoded. */
  predicate ResendFails(s: Source, turns: seq<Turn>, k: nat)
  {
    k < |turns| && turns[k].idle && Encode(MetadataMsg(s.manifest)).Err?
  }

  /** How many idle times the wait has counted after `n` turns, since the last status of the transfer. */
  function Idles(m: Manifest, turns: seq<Turn>, n: nat): (k: nat)
    requires n <= |turns|
  {
    if n == 0 then 0
    else
      var turn := turns[n - 1];
      if turn.arrival.Some? && StatusFor(m, turn.arrival.value).Some? then 0
      else Idles(m, turns, n - 1) + (if turn.idle then 1 else 0)
  }

  /** A wait that has taken `k` turns ends there: the rounds are used up, the next turn does not begin or gives up, or the
      last one brought a verdict or an error. */
  ghost predicate WaitOver(s: Source, w: WaitConfig, turns: seq<Turn>, k: nat)
    requires SourceOk(s) && k <= |turns|
  {
    || k == |turns|
    || (w.maxRounds > 0 && Serving(s, w, turns, k).rounds >= w.maxRounds)
    || turns[k].exhausted || turns[k].stop
    || (turns[k].idle && (ResendFails(s, turns, k) || !turns[k].resends || Idles(s.manifest, turns, k) + 1 >= w.maxIdle))
    || (k > 0 && TurnEnds(s, w, turns, k - 1))
  }

  ghost predicate TurnEnds(s: Source, w: WaitConfig, turns: seq<Turn>, k: nat)
    requires SourceOk(s) && k < |turns|
  {
    || TurnFails(s, w, turns, k)
    || (turns[k].arrival.Some? && (Says(s.manifest, turns[k].arrival.value, COMPLETE)
                                   || Says(s.manifest, turns[k].arrival.value, HASH_MISMATCH)))
  }

  /** What arrives in one turn of the wait: a verdict, an error, or a request that is serviced unless it repeats the one
      serviced last. */
  method ServeTurn(s: Source, w: WaitConfig, turns: seq<Turn>, k: nat, v: Service)
    returns (u: Service, completed: bool, over: bool, raised: bool)
    requires SourceOk(s) && k < |turns| && v == Serving(s, w, turns, k) && AllEncode(v.sent) && FromSource(s, v.sent)
    ensures UpToRefusal(u.sent, Serving(s, w, turns, k + 1).sent) && (!raised ==> u == Serving(s, w, turns, k + 1))
    ensures raised <==> TurnFails(s, w, turns, k)
    ensures over <==> TurnEnds(s, w, turns, k)
    ensures completed <==> turns[k].arrival.Some? && Says(s.manifest, turns[k].arrival.value, COMPLETE)
    ensures completed ==> over && !raised
    ensures v.rounds <= u.rounds <= v.rounds + 1 && FromSource(s, u.sent)
  {
    hide Malformed, Encodes, StatusFor, Answered, ChunkAt;
    var turn := turns[k];
    u, completed, over, raised := v, false, false, false;
    if turn.arrival.None? {
      return;
    }
    var raw := turn.arrival.value;
    AskedIsAskable(s.manifest, raw);
    if Malformed(raw) {
      MalformedSaysNothing(s.manifest, raw);
      return v, false, true, true;
    }
    if Says(s.manifest, raw, COMPLETE) {
      return v, true, true, false;
    }
    if Says(s.manifest, raw, HASH_MISMATCH) {
      return v, false, true, false;
    }
    var asked := Asked(s.manifest, raw);
    if asked == [] || (w.suppression > 0.0 && v.last == Some(asked) && turn.now - v.lastTime < w.suppression) {
      return;
    }
    var repaired;
    repaired, raised := SendRequestedRepairs(s, asked);
    AfterRefusal(v.sent, repaired, Answered(s, asked));
    over := raised;
    u := if raised then v.(sent := v.sent + repaired) else Service(v.sent + repaired, v.rounds + 1, Some(asked), turn.now);
  }

  /** The wait loop after the stream: complete exactly when the state machine of `System` is, after what arrived in the
      turns it took, and ended by an error exactly when the last of them, or the METADATA of the next, fails. */
  method WaitForReceiver(s: Source, w: WaitConfig, turns: seq<Turn>)
    returns (sent: seq<Chunk>, completed: bool, ending: Ending, rounds: nat, consumed: nat)
    requires SourceOk(s)
    ensures consumed <= |turns|
    ensures var a := Arrivals(turns, consumed);
            completed <==> Heard(Endpoint(s.manifest, Waiting), a, |a|).phase == Finished(true)
    ensures completed ==> ending.Done?
    ensures forall k :: 0 <= k < consumed ==>
              Heard(Endpoint(s.manifest, Waiting), Arrivals(turns, k), |Arrivals(turns, k)|).phase == Waiting
    ensures consumed < |turns| ==>
              || Heard(Endpoint(s.manifest, Waiting), Arrivals(turns, consumed), |Arrivals(turns, consumed)|).phase != Waiting
              || ending.Raised? || (w.maxRounds > 0 && rounds == w.maxRounds) || turns[consumed].exhausted || turns[consumed].stop
              || (turns[consumed].idle && (!turns[consumed].resends || Idles(s.manifest, turns, consumed) + 1 >= w.maxIdle))
    ensures var v := Serving(s, w, turns, consumed);
            UpToRefusal(sent, v.sent) && (!ending.Raised? ==> sent == v.sent && rounds == v.rounds)
    ensures ending.Raised? ==> (consumed > 0 && TurnFails(s, w, turns, consumed - 1)) || ResendFails(s, turns, consumed)
    ensures consumed > 0 && TurnFails(s, w, turns, consumed - 1) ==> ending.Raised?
    ensures WaitOver(s, w, turns, consumed) && forall k :: 0 <= k < consumed ==> !WaitOver(s, w, turns, k)
    ensures ending.Aborted? ==> consumed < |turns| && (turns[consumed].stop || !turns[consumed].resends)
    ensures w.maxRounds > 0 ==> rounds <= w.maxRounds
    ensures FromSource(s, sent)
  {
    hide Encode, StatusFor, OnDatagram, Serving, TurnFails, Says, AllEncode, UpToRefusal, FromSource;
    StartsServing(s, w, turns);
    var v := Service([], 0, None, 0.0);
    var idleTimeouts: nat := 0;
    completed, ending, consumed := false, Done, 0;
    ghost var e := Endpoint(s.manifest, Waiting);
    while (w.maxRounds <= 0 || v.rounds < w.maxRounds) && consumed < |turns|
      invariant consumed <= |turns| && (w.maxRounds > 0 ==> v.rounds <= w.maxRounds)
      invariant v == Serving(s, w, turns, consumed) && AllEncode(v.sent) && FromSource(s, v.sent)
      invariant !completed && ending.Done? && idleTimeouts == Idles(s.manifest, turns, consumed)
      invariant consumed > 0 ==> !TurnEnds(s, w, turns, consumed - 1)
      invariant forall k :: 0 <= k < consumed ==> !WaitOver(s, w, turns, k)
      invariant Heard(e, Arrivals(turns, consumed), |Arrivals(turns, consumed)|) == e
      invariant forall k :: 0 <= k < consumed ==> Heard(e, Arrivals(turns, k), |Arrivals(turns, k)|) == e
      decreases |turns| - consumed
    {
      var turn := turns[consumed];
      if turn.exhausted {
        break;
      }
      if turn.stop {
        ending := Aborted;
        break;
      }
      if turn.idle {
        idleTimeouts := idleTimeouts + 1;
        if Encode(MetadataMsg(s.manifest)).Err? {
          ending := Raised;
          break;
        }
        if !turn.resends {
          ending := Aborted;
          break;
        }
        if idleTimeouts >= w.maxIdle {
          break;
        }
      }
      if turn.arrival.Some? && StatusFor(s.manifest, turn.arrival.value).Some? {
        idleTimeouts := 0;
      }
      HeardTurn(e, turns, consumed);
      var over, raised;
      v, completed, over, raised := ServeTurn(s, w, turns, consumed, v);
      consumed := consumed + 1;
      if over {
        ending := if raised then Raised else Done;
        break;
      }
      SentEncodes(v.sent, Serving(s, w, turns, consumed).sent);
    }
    WholeIsUpToRefusal(v.sent);
    sent, rounds := v.sent, v.rounds;
  }

  lemma StartsServing(s: Source, w: WaitConfig, turns: seq<Turn>)
    requires SourceOk(s)
    ensures Serving(s, w, turns, 0) == Service([], 0, None, 0.0) && AllEncode([]) && FromSource(s, [])
  {
  }

  lemma SentEncodes(sent: seq<Chunk>, all: seq<Chunk>)
    requires UpToRefusal(sent, all)
    ensures AllEncode(sent)
  {
  }

  lemma WholeIsUpToRefusal(sent: seq<Chunk>)
    ensures AllEncode(sent) ==> UpToRefusal(sent, sent)
  {
  }

  /** What a turn of the wait makes of the state machine. */
  lemma HeardTurn(e: Endpoint, turns: seq<Turn>, k: nat)
    requires k < |turns| && e.phase.Waiting? && Heard(e, Arrivals(turns, k), |Arrivals(turns, k)|) == e
    ensures var a, turn := Arrivals(turns, k + 1), turns[k];
            var f := Heard(e, a, |a|);
            && (f.phase == Finished(true) <==> turn.arrival.Some? && Says(e.manifest, turn.arrival.value, COMPLETE))
            && (if turn.arrival.Some? && (Says(e.manifest, turn.arrival.value, COMPLETE)
                                          || Says(e.manifest, turn.arrival.value, HASH_MISMATCH))
                then f.phase.Finished? else f == e)
  {
    hide StatusFor, OnDatagram;
    var before := Arrivals(turns, k);
    if turns[k].arrival.Some? {
      HeardMore(e, before, turns[k].arrival.value);
      HeardOne(e, turns[k].arrival.value);
    } else {
      assert before + [] == before;
    }
  }

  lemma HeardMore(e: Endpoint, before: seq<bytes>, raw: bytes)
    ensures Heard(e, before + [raw], |before| + 1) == OnDatagram(Heard(e, before, |before|), raw)
  {
    HeardPrefix(e, before, raw, |before|);
  }

  lemma {:induction false} HeardPrefix(e: Endpoint, before: seq<bytes>, raw: bytes, n: nat)
    requires n <= |before|
    ensures Heard(e, before + [raw], n) == Heard(e, before, n)
  {
    if n > 0 {
      HeardPrefix(e, before, raw, n - 1);
    }
  }

  /** Turn `k` services a request. */
  ghost predicate Services(s: Source, w: WaitConfig, turns: seq<Turn>, k: nat)
    requires SourceOk(s) && k < |turns|
  {
    Serving(s, w, turns, k + 1).rounds > Serving(s, w, turns, k).rounds
  }

  /** What one turn makes of the servicing: a request is serviced unless it repeats the one that is remembered, too soon. */
  lemma ServedIs(s: Source, w: WaitConfig, v: Service, turn: Turn)
    requires SourceOk(s)
    ensures Askable(AskedIn(s, turn))
    ensures var u, asked := Served(s, w, v, turn), AskedIn(s, turn);
            if asked == [] || (w.suppression > 0.0 && v.last == Some(asked) && turn.now - v.lastTime < w.suppression)
            then u == v
            else u == Service(v.sent + Answered(s, asked), v.rounds + 1, Some(asked), turn.now)
  {
    AskedInIsAskable(s, turn);
    hide AskedIn, Answered, Askable;
  }

  lemma ServingStep(s: Source, w: WaitConfig, turns: seq<Turn>, k: nat)
    requires SourceOk(s) && k < |turns|
    ensures Serving(s, w, turns, k + 1) == Served(s, w, Serving(s, w, turns, k), turns[k])
  {
    hide Served;
  }

  /** While no turn services anything, nothing about the servicing changes. */
  lemma {:induction false} ServingRests(s: Source, w: WaitConfig, turns: seq<Turn>, j: nat, k: nat)
    requires SourceOk(s) && j <= k <= |turns|
    requires forall i :: j <= i < k ==> !Services(s, w, turns, i)
    ensures Serving(s, w, turns, k) == Serving(s, w, turns, j)
  {
    hide Serving, Served, AskedIn, Answered, Askable;
    if j < k {
      ServingRests(s, w, turns, j, k - 1);
      ServingStep(s, w, turns, k - 1);
      ServedIs(s, w, Serving(s, w, turns, k - 1), turns[k - 1]);
      assert !Services(s, w, turns, k - 1);
    }
  }

  /** The same ranges are not serviced twice in a row within the suppression time. */
  lemma RepetitionsAreSpaced(s: Source, w: WaitConfig, turns: seq<Turn>, j: nat, k: nat)
    requires SourceOk(s) && j < k < |turns| && w.suppression > 0.0
    requires Services(s, w, turns, j) && Services(s, w, turns, k)
    requires forall i :: j < i < k ==> !Services(s, w, turns, i)
    ensures turns[j].arrival.Some? && turns[k].arrival.Some?
    ensures Asked(s.manifest, turns[j].arrival.value) == Asked(s.manifest, turns[k].arrival.value) ==>
              turns[k].now - turns[j].now >= w.suppression
  {
    hide Serving, Served, Asked, Answered, Askable;
    ServingRests(s, w, turns, j + 1, k);
    ServingStep(s, w, turns, j);
    ServingStep(s, w, turns, k);
    ServedIs(s, w, Serving(s, w, turns, j), turns[j]);
    ServedIs(s, w, Serving(s, w, turns, k), turns[k]);
  }

  /** The last number below `k` with the property. */
  ghost function LastWhere(p: nat -> bool, k: nat): (j: Option<nat>)
    ensures j.Some? ==> j.value < k && p(j.value) && forall i :: j.value < i < k ==> !p(i)
    ensures j.None? ==> forall i :: 0 <= i < k ==> !p(i)
  {
    if k == 0 then None else if p(k - 1) then Some(k - 1) else LastWhere(p, k - 1)
  }

  /** The last turn before turn `k` that services a request. */
  ghost function LastService(s: Source, w: WaitConfig, turns: seq<Turn>, k: nat): (j: Option<nat>)
    requires SourceOk(s) && k <= |turns|
    ensures j.Some? ==> j.value < k
  {
    LastWhere((i: nat) => i < |turns| && Services(s, w, turns, i), k)
  }

  lemma LastServiceStep(s: Source, w: WaitConfig, turns: seq<Turn>, k: nat)
    requires SourceOk(s) && k < |turns|
    ensures LastService(s, w, turns, k + 1) == if Services(s, w, turns, k) then Some(k) else LastService(s, w, turns, k)
  {
    hide Services;
  }

  lemma NoLastService(s: Source, w: WaitConfig, turns: seq<Turn>)
    requires SourceOk(s)
    ensures LastService(s, w, turns, 0) == None
  {
  }

  /** What is remembered is the request serviced last, and when. */
  lemma {:induction false} LastRemembered(s: Source, w: WaitConfig, turns: seq<Turn>, k: nat)
    requires SourceOk(s) && k <= |turns|
    ensures var v, j := Serving(s, w, turns, k), LastService(s, w, turns, k);
            if j.Some? then v.last == Some(AskedIn(s, turns[j.value])) && v.lastTime == turns[j.value].now else v.last == None
  {
    hide AskedIn, Serving, Served, LastService, Answered, Askable;
    StartsServing(s, w, turns);
    if k == 0 {
      NoLastService(s, w, turns);
    } else {
      LastRemembered(s, w, turns, k - 1);
      ServingStep(s, w, turns, k - 1);
      ServedIs(s, w, Serving(s, w, turns, k - 1), turns[k - 1]);
      LastServiceStep(s, w, turns, k - 1);
    }
  }

  /** The turn repeats the request that was serviced last, within the suppression time. */
  ghost predicate RepeatsTooSoon(s: Source, w: WaitConfig, turns: seq<Turn>, k: nat)
    requires SourceOk(s) && k < |turns|
  {
    var j := LastService(s, w, turns, k);
    && w.suppression > 0.0 && j.Some? && AskedIn(s, turns[j.value]) == AskedIn(s, turns[k])
    && turns[k].now - turns[j.value].now < w.suppression
  }

  /** A turn of the wait services what arrives exactly when it asks for something and does not repeat the request serviced last
      too soon; then every chunk that it asks for goes out. */
  lemma ServicedIff(s: Source, w: WaitConfig, turns: seq<Turn>, k: nat)
    requires SourceOk(s) && k < |turns|
    ensures Services(s, w, turns, k) <==> AskedIn(s, turns[k]) != [] && !RepeatsTooSoon(s, w, turns, k)
    ensures Askable(AskedIn(s, turns[k]))
    ensures Serving(s, w, turns, k + 1).sent
         == Serving(s, w, turns, k).sent + (if Services(s, w, turns, k) then Answered(s, AskedIn(s, turns[k])) else [])
  {
    hide Serving, Served, AskedIn, Answered, LastService, Askable;
    LastRemembered(s, w, turns, k);
    ServingStep(s, w, turns, k);
    ServedIs(s, w, Serving(s, w, turns, k), turns[k]);
    var v := Serving(s, w, turns, k);
    assert v.sent + [] == v.sent;
  }

  /** How many of the turns from `j` to `n` are idle. */
  function IdleTurns(turns: seq<Turn>, j: nat, n: nat): (k: nat)
    requires j <= n <= |turns|
    decreases n - j
  {
    if j == n then 0 else IdleTurns(turns, j, n - 1) + (if turns[n - 1].idle then 1 else 0)
  }

  predicate BringsStatus(m: Manifest, turn: Turn)
  {
    turn.arrival.Some? && StatusFor(m, turn.arrival.value).Some?
  }

  /** What is counted are the idle turns since the last status of the transfer. */
  lemma {:induction false} IdlesAre(m: Manifest, turns: seq<Turn>, n: nat) returns (j: nat)
    requires n <= |turns|
    ensures j <= n && (j > 0 ==> BringsStatus(m, turns[j - 1]))
    ensures forall i :: j <= i < n ==> !BringsStatus(m, turns[i])
    ensures Idles(m, turns, n) == IdleTurns(turns, j, n)
  {
    hide StatusFor;
    if n == 0 || BringsStatus(m, turns[n - 1]) {
      j := n;
    } else {
      j := IdlesAre(m, turns, n - 1);
    }
  }

  // ---------------------------------------------------------------- a send with feedback

  /** What reaches a send with feedback: while streaming, between the stream and the wait, and in the wait. */
  datatype Uplink = Uplink(streaming: seq<bytes>, drained: seq<bytes>, turns: seq<Turn>)

  /** What makes a send with feedback end with an error: METADATA that cannot be encoded, a chunk of the file that cannot,
      or a malformed STATUS in what it took after the stream. */
  ghost predicate Failing(s: Source, up: Uplink, taken: nat, waited: nat)
    requires SourceOk(s) && taken <= |up.drained| && waited <= |up.turns|
  {
    || Encode(MetadataMsg(s.manifest)).Err?
    || !FileEncodes(s)
    || (exists k :: 0 <= k < taken && Malformed(up.drained[k]))
    || (exists k :: 0 <= k < waited && up.turns[k].arrival.Some? && Malformed(up.turns[k].arrival.value))
  }

  /** What a send with feedback takes of the datagrams: everything up to where each of its three loops ends, and nothing in
      a loop that is passed over. */
  ghost predicate Takes(s: Source, w: WaitConfig, sendInitialData: bool, up: Uplink, maxRounds: int, maxChunks: int,
                        budgetLeft: bool, pumped: nat, taken: nat, waited: nat)
    requires SourceOk(s) && pumped <= |up.streaming| && taken <= |up.drained| && waited <= |up.turns|
  {
    var m := s.manifest;
    var signalled := !NotComplete(m, up.streaming, pumped);
    && (if sendInitialData
        then PumpOver(m, up.streaming, pumped) && forall k :: 0 <= k < pumped ==> !PumpOver(m, up.streaming, k)
        else pumped == 0)
    && (if budgetLeft && !signalled
        then DrainOver(s, up.drained, maxRounds, maxChunks, taken)
             && forall k :: 0 <= k < taken ==> !DrainOver(s, up.drained, maxRounds, maxChunks, k)
        else taken == 0)
    && (if !signalled && NotComplete(m, up.drained, taken)
        then WaitOver(s, w, up.turns, waited) && forall k :: 0 <= k < waited ==> !WaitOver(s, w, up.turns, k)
        else waited == 0)
  }

  /** `send_file` with feedback on and discovery off.  When it ends as it should, its verdict is the verdict of the state
      machine of `System` on the datagrams it took: the pumped ones while streaming, the drained ones before the wait, the
      arrivals in the wait. */
  method SendWithFeedback(s: Source, c: DropConfig, w: WaitConfig, repeats: int, announcing: Fate, sendInitialData: bool,
                          fate: Fate, up: Uplink, maxRounds: int, maxChunks: int, budgetLeft: bool)
    returns (completed: bool, ending: Ending, ghost pumped: nat, ghost taken: nat, ghost waited: nat)
    requires SourceOk(s)
    ensures !ending.Done? ==> !completed
    ensures pumped <= |up.streaming| && taken <= |up.drained| && waited <= |up.turns|
    ensures ending.Done? && s.manifest.totalChunks > 0 ==>
              Takes(s, w, sendInitialData, up, maxRounds, maxChunks, budgetLeft, pumped, taken, waited)
    ensures ending.Done? ==> (completed <==> Concluded(s.manifest, up, pumped, taken, waited) == Finished(true))
    ensures ending.Raised? ==> Failing(s, up, taken, waited)
    ensures repeats > 0 && !announcing.stop(0) && Encode(MetadataMsg(s.manifest)).Err? ==> ending.Raised?
    ensures Undisturbed(announcing) && Undisturbed(fate) && sendInitialData && !PassGoes(s, c, fate) ==> ending.Raised?
  {
    hide Encode, Encodes, ChunkAt, Malformed, Decode, StatusFor, OnDatagram, OnStatus, Drops, AllEncode, Drained, Serving,
         PumpOver, DrainOver, WaitOver, Idles, UpToRefusal, FromSource;
    completed, ending, pumped, taken, waited := false, Done, 0, 0, 0;
    ChunkNonempty(s, 0);
    var _, announcement := SendMetadataRepeats(s, repeats, announcing);
    if !announcement.Done? {
      ending := announcement;
      return;
    }
    ghost var e := Endpoint(s.manifest, Streaming(true, false));
    if s.manifest.totalChunks == 0 {
      completed := true;
      return;
    }
    if sendInitialData {
      var _, _, pass := InitialPass(s, c, fate);
      PassDecides(s, c, fate, Reached(s, c, fate, 0), pass);
      if !pass.Done? {
        ending := pass;
        return;
      }
      completed, pumped := ReceivePump(s.manifest, up.streaming);
      e := Heard(e, up.streaming, pumped);
    }
    e := Stopped(e);
    if !completed && budgetLeft {
      var _, _, done, raised, consumed := DrainRepairRequests(s, up.drained, maxRounds, maxChunks);
      taken := consumed;
      if raised {
        DrainedEncodes(s, up.drained, maxChunks, taken);
        ending := Raised;
        return;
      }
      completed := done;
    }
    DrainIsHeard(e, up.drained, taken);
    e := Heard(e, up.drained, taken);
    assert e == Endpoint(s.manifest, Streaming(false, completed));
    if completed {
      return;
    }
    var _, verdict, end, _, consumed := WaitForReceiver(s, w, up.turns);
    completed, ending, waited := verdict, end, consumed;
    ServingEncodes(s, w, up.turns, waited);
  }

  /** A repair of a file whose chunks can all be encoded is not refused. */
  lemma AnsweredEncodes(s: Source, missing: seq<Range>)
    requires SourceOk(s) && Askable(missing) && FileEncodes(s)
    ensures AllEncode(Answered(s, missing))
  {
    hide Encodes, ChunkAt;
    ChunkNonempty(s, 0);
    AnswerFits(s, missing);
  }

  lemma {:induction false} DrainedEncodes(s: Source, inbox: seq<bytes>, maxChunks: int, n: nat)
    requires SourceOk(s) && n <= |inbox|
    ensures FileEncodes(s) ==> AllEncode(Drained(s, inbox, maxChunks, n).0)
  {
    hide Encodes, Asked, Budgeted, Answered, FileEncodes;
    if n > 0 {
      DrainedEncodes(s, inbox, maxChunks, n - 1);
      var (sent, _) := Drained(s, inbox, maxChunks, n - 1);
      BudgetedIsAskable(s.manifest, inbox[n - 1], maxChunks, |sent|);
      if FileEncodes(s) {
        AnsweredEncodes(s, Budgeted(Asked(s.manifest, inbox[n - 1]), maxChunks, |sent|));
      }
    }
  }

  lemma {:induction false} ServingEncodes(s: Source, w: WaitConfig, turns: seq<Turn>, n: nat)
    requires SourceOk(s) && n <= |turns|
    ensures FileEncodes(s) ==> AllEncode(Serving(s, w, turns, n).sent)
  {
    hide Encodes, Asked, Answered, FileEncodes;
    if n > 0 {
      ServingEncodes(s, w, turns, n - 1);
      if turns[n - 1].arrival.Some? {
        AskedIsAskable(s.manifest, turns[n - 1].arrival.value);
        if FileEncodes(s) {
          AnsweredEncodes(s, Asked(s.manifest, turns[n - 1].arrival.value));
        }
      }
    }
  }

  /** The pump is stopped at the end of the stream. */
  function Stopped(e: Endpoint): (f: Endpoint)
  {
    if e.phase.Streaming? then e.(phase := Streaming(false, e.phase.signal)) else e
  }

  /** The phase a send is in after the datagrams it took. */
  function Concluded(m: Manifest, up: Uplink, pumped: nat, taken: nat, waited: nat): (p: Phase)
    requires pumped <= |up.streaming| && taken <= |up.drained| && waited <= |up.turns|
  {
    var e := Stopped(Heard(Endpoint(m, Streaming(true, false)), up.streaming, pumped));
    var f := Heard(e, up.drained, taken);
    var g := f.(phase := EndStream(f));
    var a := Arrivals(up.turns, waited);
    Heard(g, a, |a|).phase
  }

  predicate Signalled(p: Phase)
  {
    p == Finished(true) || (p.Streaming? && p.signal)
  }

  lemma {:induction false} HeardReason(e: Endpoint, inbox: seq<bytes>, n: nat)
    requires n <= |inbox| && Signalled(Heard(e, inbox, n).phase) && !Signalled(e.phase)
    ensures Heard(e, inbox, n).manifest == e.manifest && !NotComplete(e.manifest, inbox, n)
  {
    hide StatusFor;
    if n > 0 {
      HeardManifest(e, inbox, n - 1);
      HeardOne(Heard(e, inbox, n - 1), inbox[n - 1]);
      if Signalled(Heard(e, inbox, n - 1).phase) {
        HeardReason(e, inbox, n - 1);
      } else {
        assert Says(e.manifest, inbox[n - 1], COMPLETE);
      }
    }
  }

  lemma {:induction false} HeardManifest(e: Endpoint, inbox: seq<bytes>, n: nat)
    requires n <= |inbox|
    ensures Heard(e, inbox, n).manifest == e.manifest
  {
    if n > 0 {
      HeardManifest(e, inbox, n - 1);
      HeardOne(Heard(e, inbox, n - 1), inbox[n - 1]);
    }
  }

  /** A send with feedback that reports a nonempty file complete has taken a COMPLETE status of its own transfer. */
  lemma VerdictHasReason(m: Manifest, up: Uplink, pumped: nat, taken: nat, waited: nat)
    requires pumped <= |up.streaming| && taken <= |up.drained| && waited <= |up.turns|
    requires Concluded(m, up, pumped, taken, waited) == Finished(true) && m.totalChunks != 0
    ensures var a := Arrivals(up.turns, waited);
            || !NotComplete(m, up.streaming, pumped) || !NotComplete(m, up.drained, taken) || !NotComplete(m, a, |a|)
  {
    hide OnDatagram, StatusFor;
    var e0 := Endpoint(m, Streaming(true, false));
    var e := Stopped(Heard(e0, up.streaming, pumped));
    HeardManifest(e0, up.streaming, pumped);
    HeardManifest(e, up.drained, taken);
    var f := Heard(e, up.drained, taken);
    var g := f.(phase := EndStream(f));
    var a := Arrivals(up.turns, waited);
    if Signalled(Heard(e0, up.streaming, pumped).phase) {
      HeardReason(e0, up.streaming, pumped);
    } else if Signalled(f.phase) {
      HeardReason(e, up.drained, taken);
    } else {
      HeardReason(g, a, |a|);
    }
  }

  /** Hearing a list of datagrams that are on the network is a run of the system. */
  lemma {:induction false} HeardIsRun(w: World, c: Config, s: Sys, id: bytes, inbox: seq<bytes>, n: nat)
    requires id in s.senders && n <= |inbox| && forall k :: 0 <= k < |inbox| ==> inbox[k] in s.net && Arrives(w, inbox[k])
    ensures Run(w, c, s, seq(|inbox|, k requires 0 <= k < |inbox| => SenderReceive(id, inbox[k])), n)
         == s.(senders := s.senders[id := Heard(s.senders[id], inbox, n)])
  {
    hide OnDatagram;
    if n > 0 {
      HeardIsRun(w, c, s, id, inbox, n - 1);
    }
  }

  /** All datagrams of a list up to `n` are on the network. */
  ghost predicate OnNet(t: Sys, inbox: seq<bytes>, n: nat)
    requires n <= |inbox|
  {
    forall k :: 0 <= k < n ==> inbox[k] in t.net
  }

  /** A COMPLETE status on the network means a published file, or an answer by size and time for a file with another hash. */
  lemma CompleteIsSound(w: World, t: Sys, m: Manifest, inbox: seq<bytes>, n: nat)
    requires SysInv(w, t) && Honest(w, m) && n <= |inbox| && OnNet(t, inbox, n) && !NotComplete(m, inbox, n)
    ensures Published(w, t.history, SignatureOf(m)) || m.id in t.history.byTime
  {
    hide SysInv, Decode;
    var k :| 0 <= k < n && Says(m, inbox[k], COMPLETE);
    NetMessage(w, t, inbox[k]);
  }

  /** When a `send_file` with feedback whose verdict is `SendWithFeedback`'s reports a file with chunks completed, on
      datagrams that a run of the system put on the network, then in some state of that run the receiver had a final file
      with the manifest's hash at the manifest's destination, unless a METADATA of the transfer was answered by size and
      time for a file with another hash. */
  lemma FeedbackVerdictAgrees(w: World, c: Config, s: Sys, events: seq<Event>, m: Manifest, up: Uplink,
                              pumped: nat, taken: nat, waited: nat)
    requires Init(w, s) && Honest(w, m) && m.totalChunks > 0
    requires pumped <= |up.streaming| && taken <= |up.drained| && waited <= |up.turns|
    requires Concluded(m, up, pumped, taken, waited) == Finished(true)
    requires var t, a := Run(w, c, s, events, |events|), Arrivals(up.turns, waited);
             && OnNet(t, up.streaming, pumped) && OnNet(t, up.drained, taken) && OnNet(t, a, |a|)
             && m.id !in t.history.byTime
    ensures && w.host.dest(m.name).Some?
            && exists j :: 0 <= j <= |events| &&
                 Theorems.HadFile(w, Run(w, c, s, events, j).receiver, w.host.dest(m.name).value, m.sha)
  {
    RunOk(w, c, s, events, |events|);
    var t, a := Run(w, c, s, events, |events|), Arrivals(up.turns, waited);
    hide Run, SysInv, Init, Honest, Concluded, Theorems.HadFile, NotComplete, OnNet;
    VerdictHasReason(m, up, pumped, taken, waited);
    if !NotComplete(m, up.streaming, pumped) {
      CompleteIsSound(w, t, m, up.streaming, pumped);
    } else if !NotComplete(m, up.drained, taken) {
      CompleteIsSound(w, t, m, up.drained, taken);
    } else {
      CompleteIsSound(w, t, m, a, |a|);
    }
    Theorems.SeenWasThere(w, c, s, events, |events|, w.host.dest(m.name).value, m.sha);
  }
}
