/** What every step of the receiver keeps: the facts behind reassembly, crash soundness, finalization and the signature
    index, each as a predicate on the fields it is about. */
module Safety {
  import opened Bytes
  import opened Ranges
  import opened Frames
  import opened Repair
  import opened PreMetadata
  import opened Pacing
  import opened ReceiverModel
  import Tracker

  // ---------------------------------------------------------------- assumptions

  /** The outside world: the host, the signature every transfer id stands for (an id is never reused for another
      signature), the file every signature stands for (a source does not change, and equal signatures mean equal bytes),
      and the size of the largest datagram the network carries. */
  datatype World = World(host: Host, sigOf: bytes -> Signature, source: Signature -> bytes, largest: nat)

  /** What has happened: the (path, hash) pairs of final files that existed at some time, and the ids that were answered
      by the size-and-time shortcut for a file with another hash. */
  datatype History = History(seen: set<(bytes, bytes)>, byTime: set<bytes>)

  /** A manifest as `send_file` builds it for its source file. */
  ghost predicate Honest(w: World, m: Manifest)
  {
    && |m.id| == ID_SIZE && |m.sha| == SHA_SIZE && UniqueKeys(m.metadata) && ManifestOk(m)
    && SignatureOf(m) == w.sigOf(m.id)
    && |w.source(SignatureOf(m))| == m.fileSize
  }

  /** A payload as `_read_chunk` reads it from the source of transfer `id`. */
  ghost predicate HonestChunk(w: World, id: bytes, index: int, payload: bytes)
  {
    var g := w.sigOf(id);
    && g.chunkSize > 0 && |w.source(g)| == g.size
    && 0 <= index < ExpectedChunks(g.size, g.chunkSize)
    && payload == ChunkOf(w.source(g), g.chunkSize, index)
  }

  /** A final file whose hash is the one of signature `g` has existed at the path `g` goes to. */
  ghost predicate Published(w: World, h: History, g: Signature)
  {
    w.host.dest(g.name).Some? && (w.host.dest(g.name).value, g.sha) in h.seen
  }

  // ---------------------------------------------------------------- what a DATA frame carries

  /** The largest datagram that arrives as it was sent: the network carries it and one read takes it. */
  function Largest(w: World): (n: nat)
  {
    if w.largest < READ_SIZE then w.largest else READ_SIZE
  }

  predicate Arrives(w: World, raw: bytes)
  {
    |raw| <= Largest(w)
  }

  /** The payload that is left of it in a DATA frame. */
  function Room(w: World): (n: int)
  {
    Largest(w) - HEADER_SIZE - DATA_FIXED
  }

  /** Chunk `i` has at most `room` octets. */
  predicate Carried(room: int, size: int, chunkSize: int, i: int)
  {
    ChunkEnd(size, chunkSize, i) - i * chunkSize <= room
  }

  /** Every chunk of a file fits if and only if the chunk size does or the whole file does. */
  lemma AllCarriedIff(room: int, size: int, chunkSize: int)
    requires size >= 0 && chunkSize > 0 && room >= 0
    ensures (forall i :: 0 <= i < ExpectedChunks(size, chunkSize) ==> Carried(room, size, chunkSize, i))
       <==> chunkSize <= room || size <= room
  {
    ChunkInside(size, chunkSize, 0);
    if chunkSize <= room || size <= room {
      forall i | 0 <= i < ExpectedChunks(size, chunkSize) ensures Carried(room, size, chunkSize, i) {
        Product(i, chunkSize);
      }
    } else {
      assert !Carried(room, size, chunkSize, 0);
    }
  }

  /** `encode_data_chunk` refuses a chunk, with its error, exactly when it is longer than 65535 octets; what it accepts
      arrives exactly when the payload leaves room for the 32 octets of framing, and then decodes to itself. */
  lemma EncodesIfCarried(w: World, id: bytes, index: int, payload: bytes)
    requires HonestChunk(w, id, index, payload) && Fits(index, 4)
    ensures var m, g := DataMsg(Chunk(id, index, payload)), w.sigOf(id);
            && (Encode(m).Ok? <==> Carried(MAX_PAYLOAD, g.size, g.chunkSize, index))
            && (Encode(m).Ok? ==> (Arrives(w, Encode(m).value) <==> Carried(Room(w), g.size, g.chunkSize, index)))
            && (Encode(m).Ok? && |id| == ID_SIZE ==> Decode(Encode(m).value) == Ok(m))
  {
    if EncodeChunk(Chunk(id, index, payload)).Ok? {
      ChunkFrameSize(Chunk(id, index, payload));
    }
    HonestLength(w, id, index, payload);
    ChunkEncodes(Chunk(id, index, payload));
    hide HonestChunk, EncodeChunk, Decode;
    if |id| == ID_SIZE && Encode(DataMsg(Chunk(id, index, payload))).Ok? {
      MessageRoundTrip(DataMsg(Chunk(id, index, payload)));
    }
  }

  // ---------------------------------------------------------------- part files

  /** The file holds the source's bytes in every chunk of `s`. */
  ghost predicate Holds(w: World, g: Signature, file: bytes, s: set<int>)
  {
    && g.chunkSize > 0 && |file| == |w.source(g)|
    && forall i :: i in s ==> HoldsChunk(w, g, file, i)
  }

  ghost predicate HoldsChunk(w: World, g: Signature, file: bytes, i: int)
    requires g.chunkSize > 0
  {
    i >= 0 && ChunkOf(file, g.chunkSize, i) == ChunkOf(w.source(g), g.chunkSize, i)
  }

  ghost predicate PartsOk(w: World, parts: map<bytes, bytes>)
  {
    forall p :: p in parts ==> |parts[p]| == w.sigOf(p).size
  }

  lemma MulMono(i: int, j: int, n: int)
    requires i <= j && n > 0
    ensures i * n <= j * n
  {
    assert (j - i) * n >= 0;
  }

  /** Chunk numbers below the chunk count are the ones that start inside the file. */
  lemma ChunkInside(size: int, chunkSize: int, i: int)
    requires chunkSize > 0 && size >= 0 && i >= 0
    ensures i < ExpectedChunks(size, chunkSize) <==> i * chunkSize < size
  {
    if size > 0 {
      var n := (size + chunkSize - 1) / chunkSize;
      assert n * chunkSize < size + chunkSize <= n * chunkSize + chunkSize;
      if i < n {
        MulMono(i, n - 1, chunkSize);
        assert (n - 1) * chunkSize == n * chunkSize - chunkSize;
      } else {
        MulMono(n, i, chunkSize);
      }
    } else {
      MulMono(0, i, chunkSize);
    }
  }

  /** Writing one chunk changes that chunk and no other. */
  lemma WriteChunk(file: bytes, chunkSize: int, i: int, payload: bytes, j: int)
    requires chunkSize > 0 && i >= 0 && j >= 0 && 0 <= i * chunkSize < |file|
    requires |payload| == ChunkEnd(|file|, chunkSize, i) - i * chunkSize
    ensures i * chunkSize + |payload| <= |file|
    ensures ChunkOf(WriteAt(file, i * chunkSize, payload), chunkSize, j)
         == if j == i then payload else ChunkOf(file, chunkSize, j)
  {
    Product(i, chunkSize);
    Product(j, chunkSize);
    var r := WriteAt(file, i * chunkSize, payload);
    if j < i {
      MulMono(j + 1, i, chunkSize);
    } else if j > i {
      MulMono(i + 1, j, chunkSize);
    }
  }

  /** The payload an honest sender reads for a chunk has the length of that chunk and lies inside the file. */
  lemma HonestLength(w: World, id: bytes, index: int, payload: bytes)
    requires HonestChunk(w, id, index, payload)
    ensures var g := w.sigOf(id);
            && 0 <= index * g.chunkSize < g.size
            && |payload| == ChunkEnd(g.size, g.chunkSize, index) - index * g.chunkSize
            && index * g.chunkSize + |payload| <= g.size
  {
    var g := w.sigOf(id);
    ChunkInside(g.size, g.chunkSize, index);
    Product(index, g.chunkSize);
  }

  /** An honest write makes its chunk right and leaves every other chunk as it was. */
  lemma HonestWrite(w: World, id: bytes, index: int, payload: bytes, file: bytes, s: set<int>)
    requires HonestChunk(w, id, index, payload) && Holds(w, w.sigOf(id), file, s)
    ensures var g := w.sigOf(id);
            && 0 <= index * g.chunkSize && index * g.chunkSize + |payload| <= |file|
            && Holds(w, g, WriteAt(file, index * g.chunkSize, payload), s + {index})
  {
    var g := w.sigOf(id);
    HonestLength(w, id, index, payload);
    forall i | i in s + {index} ensures HoldsChunk(w, g, WriteAt(file, index * g.chunkSize, payload), i) {
      if i != index {
        assert HoldsChunk(w, g, file, i);
      }
      WriteChunk(file, g.chunkSize, index, payload, i);
    }
  }

  lemma HoldsSubset(w: World, g: Signature, file: bytes, s: set<int>, t: set<int>)
    requires Holds(w, g, file, s) && t <= s
    ensures Holds(w, g, file, t)
  {
    forall i | i in t ensures HoldsChunk(w, g, file, i) {
      assert i in s;
    }
  }

  /** A file that holds every chunk is the source, byte for byte. */
  lemma AllChunksIsSource(w: World, g: Signature, file: bytes)
    requires |w.source(g)| == g.size && g.chunkSize > 0
    requires Holds(w, g, file, Interval(0, ExpectedChunks(g.size, g.chunkSize)))
    ensures file == w.source(g)
  {
    var src, n := w.source(g), g.chunkSize;
    forall k | 0 <= k < |file| ensures file[k] == src[k] {
      var i := k / n;
      assert i * n <= k < i * n + n;
      Product(i, n);
      ChunkInside(g.size, n, i);
      assert i in Interval(0, ExpectedChunks(g.size, n));
      assert HoldsChunk(w, g, file, i);
      assert ChunkOf(file, n, i)[k - i * n] == file[k];
      assert ChunkOf(src, n, i)[k - i * n] == src[k];
    }
  }
}
