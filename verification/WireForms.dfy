/** What the decoders accept, octet by octet: for every kind of payload the exact forms that decode to a given value.  With the
    round trips of `Frames` this leaves a decoder no choice, in what it accepts and in what it refuses. */
module WireForms {
  import opened Bytes
  import opened Ranges
  import opened Frames
  import opened Repair

  // ---------------------------------------------------------------- octets

  lemma {:induction false} BEOfFromBE(s: bytes)
    ensures BE(FromBE(s), |s|) == s
  {
    if s != [] {
      BEOfFromBE(s[..|s| - 1]);
      assert s == s[..|s| - 1] + [s[|s| - 1]];
    }
  }

  /** Octets that stand for a number are the octets of that number. */
  lemma NumberIff(s: bytes, v: nat, width: nat)
    requires |s| == width
    ensures FromBE(s) == v <==> Fits(v, width) && s == BE(v, width)
  {
    BEOfFromBE(s);
    FromBEFits(s);
    if Fits(v, width) {
      BERoundTrip(v, width);
    }
  }

  lemma DivideTwice(v: nat, p: nat)
    requires p > 0
    ensures v / 256 / p == v / (256 * p)
  {
    var q := v / 256 / p;
    assert 256 * p * q <= v < 256 * p * (q + 1) by {
      assert p * q <= v / 256 < p * (q + 1);
      assert 256 * (p * q) <= 256 * (v / 256) <= v;
      assert v / 256 + 1 <= p * (q + 1);
      assert v < 256 * (v / 256 + 1) <= 256 * (p * (q + 1));
    }
    QuotientIs(v, 256 * p, q);
  }

  lemma QuotientIs(v: nat, d: nat, q: nat)
    requires d > 0 && d * q <= v < d * (q + 1)
    ensures v / d == q
  {
    var k := v / d;
    assert d * k <= v < d * k + d;
    ProductMono(d, k + 1, q);
    ProductMono(d, q + 1, k);
  }

  lemma ProductMono(d: nat, a: nat, b: nat)
    ensures a <= b ==> d * a <= d * b
  {
    if a <= b {
      assert d * (b - a) >= 0;
    }
  }

  /** Numbers are written with the most significant octet first. */
  lemma {:induction false} BigEndian(v: nat, width: nat, k: nat)
    requires k < width
    ensures BE(v, width)[k] == v / Pow256(width - 1 - k) % 256
  {
    if k == width - 1 {
      assert Pow256(0) == 1;
    } else {
      BigEndian(v / 256, width - 1, k);
      assert BE(v, width)[k] == BE(v / 256, width - 1)[k];
      DivideTwice(v, Pow256(width - 2 - k));
    }
  }

  // ---------------------------------------------------------------- frames

  /** The codes of the protocol. */
  lemma Codes()
    ensures TypeCode(METADATA) == 1 && TypeCode(DATA) == 2 && TypeCode(STATUS) == 4 && TypeCode(BEACON) == 10
    ensures StateCode(INCOMPLETE) == 0 && StateCode(COMPLETE) == 1 && StateCode(HASH_MISMATCH) == 2
    ensures StateCode(PENDING_METADATA) == 3 && StateCode(KEEPALIVE) == 4
    ensures RoleCode(SENDER) == 1 && RoleCode(RECEIVER) == 2
  {
  }

  /** A frame in ten octets and its payload; the sixth octet is not looked at. */
  function FrameForm(f: ParsedFrame, spare: byte): (raw: bytes)
  {
    [0x53, 0x53, 1, f.raw, f.flags, spare] + BE(|f.payload|, 4) + f.payload
  }

  lemma FrameFormIff(raw: bytes, f: ParsedFrame)
    ensures ParseFrame(raw) == Ok(f)
       <==> Fits(|f.payload|, 4) && f.known == KnownType(f.raw) && exists spare :: raw == FrameForm(f, spare)
  {
    hide FromBE, BE, Pow256;
    if ParseFrame(raw) == Ok(f) {
      NumberIff(raw[6..10], |f.payload|, 4);
      assert raw == raw[..2] + [raw[2], raw[3], raw[4], raw[5]] + raw[6..10] + raw[10..];
      assert raw == FrameForm(f, raw[5]);
    }
    if Fits(|f.payload|, 4) && f.known == KnownType(f.raw) && exists spare :: raw == FrameForm(f, spare) {
      var spare :| raw == FrameForm(f, spare);
      assert raw[..2] == MAGIC && raw[6..10] == BE(|f.payload|, 4) && raw[HEADER_SIZE..] == f.payload;
      NumberIff(raw[6..10], |f.payload|, 4);
    }
  }

  // ---------------------------------------------------------------- data chunks

  function ChunkForm(c: Chunk): (p: bytes)
    requires c.index >= 0
  {
    c.id + BE(c.index, 4) + BE(|c.payload|, 2) + c.payload
  }

  lemma ChunkFormIff(p: bytes, c: Chunk)
    ensures ParseChunk(p) == Ok(c)
       <==> |c.id| == 16 && Fits(c.index, 4) && |c.payload| < 65536 && p == ChunkForm(c)
  {
    hide ParseChunk, ChunkForm, BE, FromBE;
    if ParseChunk(p) == Ok(c) {
      ChunkIsForm(p, c);
    }
    if |c.id| == 16 && Fits(c.index, 4) && |c.payload| < 65536 && p == ChunkForm(c) {
      FormIsChunk(c);
    }
  }

  lemma ChunkIsForm(p: bytes, c: Chunk)
    requires ParseChunk(p) == Ok(c)
    ensures |c.id| == 16 && Fits(c.index, 4) && |c.payload| < 65536 && p == ChunkForm(c)
  {
    hide FromBE, BE, Pow256;
    Widths();
    NumberIff(p[16..20], c.index, 4);
    NumberIff(p[20..22], |c.payload|, 2);
    assert p == p[..16] + p[16..20] + p[20..22] + p[22..];
  }

  lemma FormIsChunk(c: Chunk)
    requires |c.id| == 16 && Fits(c.index, 4) && |c.payload| < 65536
    ensures ParseChunk(ChunkForm(c)) == Ok(c)
  {
    hide FromBE, BE, Pow256;
    Widths();
    var p := ChunkForm(c);
    assert p[..16] == c.id && p[16..20] == BE(c.index, 4) && p[20..22] == BE(|c.payload|, 2) && p[22..] == c.payload;
    NumberIff(p[16..20], c.index, 4);
    NumberIff(p[20..22], |c.payload|, 2);
  }

  // ---------------------------------------------------------------- beacons

  lemma BeaconFormIff(p: bytes, b: Beacon)
    ensures ParseBeacon(p) == Ok(b)
       <==> |b.id| == 16 && Fits(b.peerAge, 4)
            && var short := [RoleCode(b.role)] + b.id;
               p == short + BE(b.peerAge, 4) || (p == short && b.peerAge == 0xFFFF_FFFF)
  {
    hide FromBE, BE, Pow256;
    Widths();
    var short: bytes := [RoleCode(b.role)] + b.id;
    if ParseBeacon(p) == Ok(b) {
      assert p == [p[0]] + p[1..17] + p[17..];
      if |p| == 21 {
        NumberIff(p[17..], b.peerAge, 4);
      } else {
        assert p[17..] == [];
      }
    }
    if |b.id| == 16 && Fits(b.peerAge, 4) && p == short + BE(b.peerAge, 4) {
      assert p[1..17] == b.id && p[17..] == BE(b.peerAge, 4);
      NumberIff(p[17..], b.peerAge, 4);
    }
    if |b.id| == 16 && p == short {
      assert p[1..17] == b.id;
    }
  }

  // ---------------------------------------------------------------- range lists and TRANSFER status

  /** The pairs of a range list as they stand on the wire: start and end in four octets each. */
  function PairsForm(rs: seq<Range>): (p: bytes)
    requires forall k :: 0 <= k < |rs| ==> RangeFits(rs[k])
  {
    RangeBytes(rs, |rs|)
  }

  ghost predicate PairsOk(rs: seq<Range>)
  {
    forall k :: 0 <= k < |rs| ==> RangeFits(rs[k]) && rs[k].start < rs[k].end
  }

  lemma PairIs(s: bytes)
    requires |s| == 8
    ensures RangeFits(PairOf(s)) && s == BE(PairOf(s).start, 4) + BE(PairOf(s).end, 4)
  {
    FromBEFits(s[..4]);
    FromBEFits(s[4..]);
    BEOfFromBE(s[..4]);
    BEOfFromBE(s[4..]);
    assert s == s[..4] + s[4..];
  }

  lemma {:induction false} WirePrefix(p: bytes, rs: seq<Range>, n: nat)
    requires |p| == 8 * |rs| && n <= |rs| && forall k :: 0 <= k < |rs| ==> RangeFits(rs[k])
    requires forall k :: 0 <= k < |rs| ==> rs[k] == RangeAt(p, k)
    ensures RangeBytes(rs, n) == p[..8 * n]
  {
    hide PairOf, BE;
    if n > 0 {
      WirePrefix(p, rs, n - 1);
      PairIs(p[8 * (n - 1)..8 * n]);
      assert p[..8 * n] == p[..8 * (n - 1)] + p[8 * (n - 1)..8 * n];
    }
  }

  lemma WireIs(p: bytes, rs: seq<Range>)
    requires forall k :: 0 <= k < |rs| ==> RangeFits(rs[k])
    ensures |p| % 8 == 0 && WireRanges(p) == rs <==> p == PairsForm(rs)
  {
    if |p| % 8 == 0 && WireRanges(p) == rs {
      WirePrefix(p, rs, |rs|);
      assert p[..|p|] == p;
    }
    if p == PairsForm(rs) {
      forall k | 0 <= k < |rs| ensures RangeAt(p, k) == rs[k] {
        RangeBytesAt(rs, |rs|, k);
        PairRoundTrip(rs[k]);
      }
    }
  }

  lemma WireFits(p: bytes)
    requires |p| % 8 == 0
    ensures forall k :: 0 <= k < |p| / 8 ==> RangeFits(WireRanges(p)[k])
  {
    forall k | 0 <= k < |p| / 8 ensures RangeFits(WireRanges(p)[k]) {
      PairIs(p[8 * k..8 * k + 8]);
    }
  }

  /** A range list decodes exactly from pairs that are neither empty nor inverted, to their merged list. */
  lemma RangesFormIff(p: bytes, rs: seq<Range>)
    ensures ParseRanges(p) == Ok(rs) <==> exists wire :: PairsOk(wire) && p == PairsForm(wire) && rs == Merged(wire)
  {
    hide Merged, RangeBytes;
    if ParseRanges(p) == Ok(rs) {
      var wire := WireRanges(p);
      WireFits(p);
      WireIs(p, wire);
      assert PairsOk(wire);
    }
    if wire :| PairsOk(wire) && p == PairsForm(wire) && rs == Merged(wire) {
      WireIs(p, wire);
    }
  }

  /** The fixed part of a status. */
  function HeadForm(s: Status, kind: byte, count: nat): (p: bytes)
  {
    s.id + [kind, StateCode(s.state)] + BE(count, 2)
  }

  lemma StateIs(c: byte, state: TransferState)
    ensures StateOf(c) == Some(state) <==> c == StateCode(state)
  {
  }

  /** Where the parts of a status stand. */
  lemma HeadIff(p: bytes, s: Status, kind: byte, count: nat)
    requires |p| >= 20 && count < 65536
    ensures p[..20] == HeadForm(s, kind, count) && |s.id| == 16
       <==> p[..16] == s.id && p[16] == kind && StateOf(p[17]) == Some(s.state) && FromBE(p[18..20]) == count
  {
    hide FromBE, BE, Pow256, StateOf, StateCode;
    Widths();
    StateIs(p[17], s.state);
    NumberIff(p[18..20], count, 2);
    var h := p[..20];
    assert h == p[..16] + [p[16], p[17]] + p[18..20];
    if h == HeadForm(s, kind, count) && |s.id| == 16 {
      assert h[..16] == s.id && h[16] == kind && h[17] == StateCode(s.state) && h[18..20] == BE(count, 2);
      assert p[..16] == h[..16] && p[18..20] == h[18..20];
    }
  }

  ghost predicate TransferForm(p: bytes, s: Status, wire: seq<Range>)
  {
    && PairsOk(wire) && |wire| <= 2048 && s.missing == Merged(wire)
    && p == HeadForm(s, 0, |wire|) + PairsForm(wire)
  }

  /** A TRANSFER status decodes exactly from its fixed part and at most 2048 pairs, none of them empty or inverted. */
  lemma TransferFormIff(p: bytes, s: Status)
    requires s.kind.TRANSFER? && s.info.None? && s.token.None?
    ensures ParseStatus(p) == Ok(s) <==> |s.id| == 16 && exists wire :: TransferForm(p, s, wire)
  {
    hide ParseRanges, HeadForm, FromBE, PairsForm, Merged;
    if ParseStatus(p) == Ok(s) {
      TransferIsForm(p, s);
    }
    if |s.id| == 16 && exists wire :: TransferForm(p, s, wire) {
      var wire :| TransferForm(p, s, wire);
      FormIsTransfer(p, s, wire);
    }
  }

  lemma TransferIsForm(p: bytes, s: Status)
    requires ParseStatus(p) == Ok(s) && s.kind.TRANSFER?
    ensures |s.id| == 16 && exists wire :: TransferForm(p, s, wire)
  {
    hide ParseRanges, HeadForm, FromBE, PairsForm, Merged, StateOf, RangeBytes;
    RangesFormIff(p[20..], s.missing);
    var wire :| PairsOk(wire) && p[20..] == PairsForm(wire) && s.missing == Merged(wire);
    PairsLength(wire);
    HeadIff(p, s, 0, |wire|);
    assert p == p[..20] + p[20..];
    assert TransferForm(p, s, wire);
  }

  lemma PairsLength(wire: seq<Range>)
    requires PairsOk(wire)
    ensures |PairsForm(wire)| == 8 * |wire|
  {
  }

  lemma HeadLength(s: Status, kind: byte, count: nat)
    requires |s.id| == 16
    ensures |HeadForm(s, kind, count)| == 20
  {
  }

  lemma FormIsTransfer(p: bytes, s: Status, wire: seq<Range>)
    requires s.kind.TRANSFER? && s.info.None? && s.token.None? && |s.id| == 16 && TransferForm(p, s, wire)
    ensures ParseStatus(p) == Ok(s)
  {
    hide ParseRanges, HeadForm, FromBE, PairsForm, Merged, StateOf, RangeBytes;
    PairsLength(wire);
    HeadLength(s, 0, |wire|);
    assert p[..20] == HeadForm(s, 0, |wire|) && p[20..] == PairsForm(wire);
    HeadIff(p, s, 0, |wire|);
    RangesFormIff(p[20..], s.missing);
  }

  // ---------------------------------------------------------------- file info

  /** A file info: two flags, size and time, the hash field, and the path with its length. */
  function InfoForm(i: FileInfo, there: byte, hashed: byte, sha: bytes): (p: bytes)
    requires i.size >= 0 && i.mtime >= 0
  {
    [there, hashed] + BE(i.size, 8) + BE(i.mtime, 8) + sha + BE(|i.path|, 2) + i.path
  }

  /** Any octet but 0 sets a flag, and the hash counts when its flag is set. */
  ghost predicate InfoFits(i: FileInfo, there: byte, hashed: byte, sha: bytes)
  {
    && 0 < |i.path| < 65536 && Fits(i.size, 8) && Fits(i.mtime, 8) && |sha| == 32
    && i.present == (there != 0) && i.sha == (if hashed != 0 then Some(sha) else None)
  }

  lemma InfoFormIff(p: bytes, i: FileInfo)
    ensures ParseFileInfo(p) == Ok(i)
       <==> exists there, hashed, sha :: InfoFits(i, there, hashed, sha) && p == InfoForm(i, there, hashed, sha)
  {
    hide ParseFileInfo, InfoForm;
    if ParseFileInfo(p) == Ok(i) {
      InfoIsForm(p, i);
    }
    if there, hashed, sha :| InfoFits(i, there, hashed, sha) && p == InfoForm(i, there, hashed, sha) {
      FormIsInfo(i, there, hashed, sha);
    }
  }

  lemma InfoIsForm(p: bytes, i: FileInfo)
    requires ParseFileInfo(p) == Ok(i)
    ensures exists there, hashed, sha :: InfoFits(i, there, hashed, sha) && p == InfoForm(i, there, hashed, sha)
  {
    hide FromBE, BE, Pow256;
    Widths();
    NumberIff(p[2..10], i.size, 8);
    NumberIff(p[10..18], i.mtime, 8);
    NumberIff(p[50..52], |i.path|, 2);
    assert p == [p[0], p[1]] + p[2..10] + p[10..18] + p[18..50] + p[50..52] + p[52..];
    assert InfoFits(i, p[0], p[1], p[18..50]);
  }

  lemma FormIsInfo(i: FileInfo, there: byte, hashed: byte, sha: bytes)
    requires InfoFits(i, there, hashed, sha)
    ensures ParseFileInfo(InfoForm(i, there, hashed, sha)) == Ok(i)
  {
    hide FromBE, BE, Pow256;
    Widths();
    var p := InfoForm(i, there, hashed, sha);
    assert p[0] == there && p[1] == hashed && p[2..10] == BE(i.size, 8) && p[10..18] == BE(i.mtime, 8) && p[18..50] == sha;
    assert p[50..52] == BE(|i.path|, 2) && p[52..] == i.path;
    NumberIff(p[2..10], i.size, 8);
    NumberIff(p[10..18], i.mtime, 8);
    NumberIff(p[50..52], |i.path|, 2);
  }

  /** The variable part of a file-info status: the token with its length, and the file info. */
  function AnswerForm(token: bytes, info: bytes): (p: bytes)
    requires |token| < 256
  {
    var size: byte := |token|;
    [size] + token + info
  }

  ghost predicate ResponseForm(p: bytes, s: Status, count: nat, token: bytes, info: bytes)
  {
    && s.missing == [] && s.info.Some? && ParseFileInfo(info) == Ok(s.info.value)
    && |token| < 256 && s.token == (if token == [] then None else Some(token)) && count <= 2048
    && p == HeadForm(s, 1, count) + AnswerForm(token, info)
  }

  /** A file-info status decodes exactly from its fixed part, whose range count is only bounded, a token and a file info. */
  lemma ResponseFormIff(p: bytes, s: Status)
    requires s.kind.FILE_INFO_RESPONSE?
    ensures ParseStatus(p) == Ok(s) <==> |s.id| == 16 && exists count, token, info :: ResponseForm(p, s, count, token, info)
  {
    hide ParseStatus, ParseFileInfo, HeadForm, AnswerForm;
    if ParseStatus(p) == Ok(s) {
      ResponseIsForm(p, s);
    }
    if |s.id| == 16 && exists count, token, info :: ResponseForm(p, s, count, token, info) {
      var count, token, info :| ResponseForm(p, s, count, token, info);
      FormIsResponse(p, s, count, token, info);
    }
  }

  lemma ResponseIsForm(p: bytes, s: Status)
    requires ParseStatus(p) == Ok(s) && s.kind.FILE_INFO_RESPONSE?
    ensures |s.id| == 16 && exists count, token, info :: ResponseForm(p, s, count, token, info)
  {
    hide ParseFileInfo, ParseRanges, HeadForm, FromBE, StateOf;
    var count, size := FromBE(p[18..20]), p[20];
    var token, info := p[21..21 + size], p[21 + size..];
    HeadIff(p, s, 1, count);
    assert p == p[..20] + ([size] + token + info);
    assert ResponseForm(p, s, count, token, info);
  }

  lemma FormIsResponse(p: bytes, s: Status, count: nat, token: bytes, info: bytes)
    requires s.kind.FILE_INFO_RESPONSE? && |s.id| == 16 && ResponseForm(p, s, count, token, info)
    ensures ParseStatus(p) == Ok(s)
  {
    hide ParseFileInfo, ParseRanges, HeadForm, FromBE, StateOf;
    HeadLength(s, 1, count);
    assert p[..20] == HeadForm(s, 1, count) && p[20] == |token| && p[21..21 + |token|] == token && p[21 + |token|..] == info;
    HeadIff(p, s, 1, count);
  }

  // ---------------------------------------------------------------- metadata elements

  /** What a list of elements makes of a dictionary, from element `i` on: each sets its key, the last one wins. */
  function Collected(d: Dict<int, bytes>, es: Dict<int, bytes>, i: nat): (r: Dict<int, bytes>)
    requires i <= |es|
    decreases |es| - i
  {
    if i == |es| then d else Collected(Put(d, es[i].key, es[i].value), es, i + 1)
  }

  /** Elements from `i` on, one after the other, decode to what they collect. */
  lemma {:induction false} ElementsDecode(pre: bytes, d: Dict<int, bytes>, es: Dict<int, bytes>, i: nat)
    requires i <= |es| && AllTlvOk(es)
    ensures ParseTlvsFrom(pre + TlvsFrom(es, i), |pre|, d) == Ok(Collected(d, es, i))
    decreases |es| - i
  {
    hide Put, FromBE, ParseTlvsFrom, Tlv, BE;
    if i == |es| {
      assert pre + TlvsFrom(es, i) == pre;
      NoElement(pre, d);
    } else {
      var element, rest := Tlv(es[i]), TlvsFrom(es, i + 1);
      TlvRead(pre, es[i], rest);
      TlvStep(pre + (element + rest), |pre|, es[i], d);
      ElementsDecode(pre + element, Put(d, es[i].key, es[i].value), es, i + 1);
    }
  }

  lemma NoElement(p: bytes, d: Dict<int, bytes>)
    ensures ParseTlvsFrom(p, |p|, d) == Ok(d)
  {
  }

  lemma {:induction false} ShiftedElements(e: Entry<int, bytes>, es: Dict<int, bytes>, i: nat, d: Dict<int, bytes>)
    requires i <= |es| && TlvOk(e) && AllTlvOk(es)
    ensures AllTlvOk([e] + es) && TlvsFrom([e] + es, i + 1) == TlvsFrom(es, i)
    ensures Collected(d, [e] + es, i + 1) == Collected(d, es, i)
    decreases |es| - i
  {
    hide Put, Tlv, TlvOk;
    var all := [e] + es;
    assert forall k :: 0 <= k < |es| ==> all[k + 1] == es[k];
    assert AllTlvOk(all);
    if i < |es| {
      ShiftedElements(e, es, i + 1, Put(d, es[i].key, es[i].value));
    }
  }

  /** What decodes is such a list of elements. */
  lemma {:induction false} DecodedElements(p: bytes, cursor: nat, d: Dict<int, bytes>) returns (es: Dict<int, bytes>)
    requires cursor <= |p| && ParseTlvsFrom(p, cursor, d).Ok?
    ensures AllTlvOk(es) && p[cursor..] == TlvsFrom(es, 0) && ParseTlvsFrom(p, cursor, d).value == Collected(d, es, 0)
    decreases |p| - cursor
  {
    hide Put, FromBE;
    if cursor == |p| {
      es := [];
    } else {
      var size := FromBE(p[cursor + 1..cursor + 3]);
      var e := Entry(p[cursor], p[cursor + 3..cursor + 3 + size]);
      ElementIs(p, cursor, size);
      var rest := DecodedElements(p, cursor + 3 + size, Put(d, e.key, e.value));
      es := [e] + rest;
      hide ParseTlvsFrom, Tlv, TlvOk;
      ShiftedElements(e, rest, 0, Put(d, e.key, e.value));
      assert p[cursor..] == p[cursor..cursor + 3 + size] + p[cursor + 3 + size..];
      TlvsFromStep(es, 0);
    }
  }

  lemma ElementIs(p: bytes, cursor: nat, size: nat)
    requires cursor + 3 + size <= |p| && size == FromBE(p[cursor + 1..cursor + 3])
    ensures var e := Entry(p[cursor] as int, p[cursor + 3..cursor + 3 + size]);
            TlvOk(e) && Tlv(e) == p[cursor..cursor + 3 + size]
  {
    hide FromBE, BE, Pow256;
    Widths();
    NumberIff(p[cursor + 1..cursor + 3], size, 2);
    assert p[cursor..cursor + 3 + size] == [p[cursor]] + p[cursor + 1..cursor + 3] + p[cursor + 3..cursor + 3 + size];
  }

  /** Metadata decodes exactly from elements of a key octet, a length in two octets and as many octets, to the dictionary that
      they collect. */
  lemma TlvsFormIff(p: bytes, d: Dict<int, bytes>)
    ensures ParseTlvs(p) == Ok(d) <==> exists es :: AllTlvOk(es) && p == TlvsFrom(es, 0) && d == Collected([], es, 0)
  {
    hide ParseTlvsFrom, TlvsFrom, Collected, TlvOk;
    if ParseTlvs(p) == Ok(d) {
      var es := DecodedElements(p, 0, []);
      assert p[0..] == p;
    }
    if es: Dict<int, bytes> :| AllTlvOk(es) && p == TlvsFrom(es, 0) && d == Collected([], es, 0) {
      ElementsDecode([], [], es, 0);
      assert [] + TlvsFrom(es, 0) == TlvsFrom(es, 0);
    }
  }

  // ---------------------------------------------------------------- manifests

  /** A manifest: its fixed fields, the name with its length before it, and the metadata with its length. */
  function ManifestForm(m: Manifest, tlvs: bytes): (p: bytes)
    requires m.fileSize >= 0 && m.chunkSize >= 0 && m.totalChunks >= 0
  {
    m.id + BE(m.fileSize, 8) + BE(m.chunkSize, 4) + BE(m.totalChunks, 4) + m.sha + BE(|m.name|, 2)
    + (m.name + BE(|tlvs|, 2) + tlvs)
  }

  /** The sizes that a decoded manifest has. */
  ghost predicate ManifestFits(m: Manifest)
  {
    && |m.id| == 16 && |m.sha| == 32 && 0 < |m.name| <= 4096 && Fits(m.fileSize, 8) && Fits(m.chunkSize, 4)
    && Fits(m.totalChunks, 4) && m.chunkSize > 0
    && (if m.fileSize == 0 then m.totalChunks == 0
        else (m.totalChunks - 1) * m.chunkSize < m.fileSize <= m.totalChunks * m.chunkSize)
  }

  lemma CeilingIs(size: int, chunk: int, n: int)
    requires size >= 0 && chunk > 0 && n >= 0
    ensures n == ExpectedChunks(size, chunk)
       <==> if size == 0 then n == 0 else (n - 1) * chunk < size <= n * chunk
  {
    if size > 0 {
      var k := ExpectedChunks(size, chunk);
      CeilingBounds(size, chunk);
      hide ExpectedChunks;
      if (n - 1) * chunk < size <= n * chunk {
        IntMono(chunk, n, k - 1);
        IntMono(chunk, k, n - 1);
      }
    }
  }

  lemma CeilingBounds(size: int, chunk: int)
    requires size > 0 && chunk > 0
    ensures var k := ExpectedChunks(size, chunk); (k - 1) * chunk < size <= k * chunk
  {
    var k := (size + chunk - 1) / chunk;
    assert k * chunk <= size + chunk - 1 < k * chunk + chunk;
    assert (k - 1) * chunk == k * chunk - chunk;
  }

  lemma IntMono(d: int, a: int, b: int)
    requires d > 0
    ensures a <= b ==> a * d <= b * d
  {
    if a <= b {
      assert (b - a) * d >= 0;
    }
  }

  /** A manifest decodes exactly from that form, with metadata that decodes, and a number of chunks that is the least to cover
      the file. */
  lemma ManifestFormIff(p: bytes, m: Manifest)
    ensures ParseManifest(p) == Ok(m)
       <==> ManifestFits(m)
            && exists tlvs :: |tlvs| < 65536 && ParseTlvs(tlvs) == Ok(m.metadata) && p == ManifestForm(m, tlvs)
  {
    hide ParseManifest, ManifestForm, ParseTlvs;
    if ParseManifest(p) == Ok(m) {
      ManifestIsForm(p, m);
    }
    if ManifestFits(m)
       && exists tlvs :: |tlvs| < 65536 && ParseTlvs(tlvs) == Ok(m.metadata) && p == ManifestForm(m, tlvs) {
      var tlvs :| |tlvs| < 65536 && ParseTlvs(tlvs) == Ok(m.metadata) && p == ManifestForm(m, tlvs);
      FormIsManifest(m, tlvs);
    }
  }

  lemma ManifestIsForm(p: bytes, m: Manifest)
    requires ParseManifest(p) == Ok(m)
    ensures ManifestFits(m)
    ensures exists tlvs :: |tlvs| < 65536 && ParseTlvs(tlvs) == Ok(m.metadata) && p == ManifestForm(m, tlvs)
  {
    hide FromBE, BE, Pow256, ParseTlvs, ExpectedChunks;
    Widths();
    CeilingIs(m.fileSize, m.chunkSize, m.totalChunks);
    var n := |m.name|;
    var tlvs := p[68 + n..];
    NumberIff(p[16..24], m.fileSize, 8);
    NumberIff(p[24..28], m.chunkSize, 4);
    NumberIff(p[28..32], m.totalChunks, 4);
    NumberIff(p[64..66], n, 2);
    NumberIff(p[66 + n..68 + n], |tlvs|, 2);
    assert p == p[..16] + p[16..24] + p[24..28] + p[28..32] + p[32..64] + p[64..66]
                + (p[66..66 + n] + p[66 + n..68 + n] + tlvs);
    assert p == ManifestForm(m, tlvs);
  }

  lemma FormIsManifest(m: Manifest, tlvs: bytes)
    requires ManifestFits(m) && |tlvs| < 65536 && ParseTlvs(tlvs) == Ok(m.metadata)
    ensures ParseManifest(ManifestForm(m, tlvs)) == Ok(m)
  {
    hide FromBE, BE, Pow256, ParseTlvs, ExpectedChunks, ParseManifest;
    Widths();
    CeilingIs(m.fileSize, m.chunkSize, m.totalChunks);
    var p, n := ManifestForm(m, tlvs), |m.name|;
    assert p[..16] == m.id && p[16..24] == BE(m.fileSize, 8) && p[24..28] == BE(m.chunkSize, 4);
    assert p[28..32] == BE(m.totalChunks, 4) && p[32..64] == m.sha && p[64..66] == BE(n, 2);
    assert p[66..66 + n] == m.name && p[66 + n..68 + n] == BE(|tlvs|, 2) && p[68 + n..] == tlvs;
    NumberIff(p[16..24], m.fileSize, 8);
    NumberIff(p[24..28], m.chunkSize, 4);
    NumberIff(p[28..32], m.totalChunks, 4);
    NumberIff(p[64..66], n, 2);
    NumberIff(p[66 + n..68 + n], |tlvs|, 2);
    ParsesManifest(p, n);
  }

  // ---------------------------------------------------------------- what decodes and what encodes

  /** What the encoder writes in front of a payload; the spare octet is 0. */
  lemma EncodedForm(t: FrameType, payload: bytes, flags: byte)
    ensures EncodeFrame(t, payload, flags).Ok? <==> Fits(|payload|, 4)
    ensures Fits(|payload|, 4) ==>
              EncodeFrame(t, payload, flags).value == FrameForm(ParsedFrame(Some(t), TypeCode(t), flags, payload), 0)
  {
    hide BE;
  }

  /** A file info with a path that its encoder takes for too long. */
  predicate LongPath(m: Message)
  {
    m.StatusMsg? && m.status.info.Some? && |m.status.info.value.path| > MAX_NAME
  }

  /** Whatever decodes can be encoded again and then decodes to the same message, with one exception: a file info whose path is
      longer than 4096 octets, which the decoder does not look at, is refused by the encoder. */
  lemma DecodedReencodesIff(raw: bytes, m: Message)
    requires Decode(raw) == Ok(m)
    ensures Encode(m).Ok? <==> !LongPath(m)
    ensures Encode(m).Ok? ==> Decode(Encode(m).value) == Ok(m)
  {
    var p := ParseFrame(raw).value.payload;
    hide ParseFrame, ParseManifest, ParseChunk, ParseStatus, ParseBeacon;
    match m {
      case MetadataMsg(x) =>
        ManifestReencodes(p, x);
      case DataMsg(c) =>
        ChunkReencodes(p, c);
      case StatusMsg(s) =>
        StatusReencodes(p, s);
      case BeaconMsg(b) =>
        BeaconReencodes(p, b);
    }
  }

  lemma ManifestReencodes(p: bytes, m: Manifest)
    requires ParseManifest(p) == Ok(m)
    ensures Encode(MetadataMsg(m)).Ok? && Decode(Encode(MetadataMsg(m)).value) == Ok(MetadataMsg(m))
  {
    AcceptedManifestReencodes(p);
    AcceptedFits(p);
    hide ParseManifest, EncodeManifest, Decode, ManifestOk, EncodeTlvsSpec;
    MessageRoundTrip(MetadataMsg(m));
  }

  lemma ChunkReencodes(p: bytes, c: Chunk)
    requires ParseChunk(p) == Ok(c)
    ensures Encode(DataMsg(c)).Ok? && Decode(Encode(DataMsg(c)).value) == Ok(DataMsg(c))
  {
    ChunkFormIff(p, c);
    ChunkEncodes(c);
    hide ParseChunk, EncodeChunk, Decode, ChunkForm;
    MessageRoundTrip(DataMsg(c));
  }

  lemma BeaconReencodes(p: bytes, b: Beacon)
    requires ParseBeacon(p) == Ok(b)
    ensures Encode(BeaconMsg(b)).Ok? && Decode(Encode(BeaconMsg(b)).value) == Ok(BeaconMsg(b))
  {
    BeaconFormIff(p, b);
    EncodedForm(BEACON, [RoleCode(b.role)] + b.id + BE(b.peerAge, 4), 0);
    Widths();
    hide ParseBeacon, Decode, EncodeFrame, FrameForm, BE, Pow256;
    MessageRoundTrip(BeaconMsg(b));
  }

  lemma StatusReencodes(p: bytes, s: Status)
    requires ParseStatus(p) == Ok(s)
    ensures Encode(StatusMsg(s)).Ok? <==> !LongPath(StatusMsg(s))
    ensures Encode(StatusMsg(s)).Ok? ==> Decode(Encode(StatusMsg(s)).value) == Ok(StatusMsg(s))
  {
    hide ParseStatus, Encode, Decode;
    StatusShape(p, s);
    if s.kind.TRANSFER? {
      TransferReencodes(p, s);
    } else {
      ResponseReencodes(p, s);
    }
  }

  lemma StatusShape(p: bytes, s: Status)
    requires ParseStatus(p) == Ok(s)
    ensures if s.kind.TRANSFER? then s.info.None? && s.token.None? else s.info.Some?
  {
    hide ParseFileInfo, ParseRanges, FromBE, StateOf;
  }

  lemma TransferReencodes(p: bytes, s: Status)
    requires ParseStatus(p) == Ok(s) && s.kind.TRANSFER? && s.info.None? && s.token.None?
    ensures Encode(StatusMsg(s)).Ok? && Decode(Encode(StatusMsg(s)).value) == Ok(StatusMsg(s))
  {
    hide ParseStatus, Encode, Decode, Merged, Elems, Canonical, TransferForm;
    TransferFormIff(p, s);
    var wire :| TransferForm(p, s, wire);
    MergedOfWire(p, s, wire);
    ElemsWithin(s.missing, 0, 0xFFFF_FFFF);
    StatusSendable(s.id, s.state, s.missing, 0xFFFF_FFFF);
    assert s == Status(s.id, TRANSFER, s.state, s.missing, None, None);
  }

  lemma MergedOfWire(p: bytes, s: Status, wire: seq<Range>)
    requires TransferForm(p, s, wire)
    ensures Canonical(s.missing) && Nonempty(s.missing) && |s.missing| <= 2048
    ensures Elems(s.missing) <= Interval(0, 0xFFFF_FFFF)
  {
    hide Merged, PairsForm, HeadForm;
    MergedMeaning(wire);
    Widths();
    forall x | x in Elems(wire) ensures x in Interval(0, 0xFFFF_FFFF) {
      var k :| 0 <= k < |wire| && Hit(wire[k], x);
      assert RangeFits(wire[k]);
    }
  }

  lemma ResponseReencodes(p: bytes, s: Status)
    requires ParseStatus(p) == Ok(s) && s.kind.FILE_INFO_RESPONSE? && s.info.Some?
    ensures Encode(StatusMsg(s)).Ok? <==> !LongPath(StatusMsg(s))
    ensures Encode(StatusMsg(s)).Ok? ==> Decode(Encode(StatusMsg(s)).value) == Ok(StatusMsg(s))
  {
    hide ParseStatus, ResponseForm, EncodeStatus, Decode;
    ResponseFormIff(p, s);
    var count, token, info :| ResponseForm(p, s, count, token, info);
    ResponseFits(p, s, count, token, info);
    ResponseEncodes(s);
    if EncodeStatus(s).Ok? {
      StatusRoundTrip(s);
      DecodesStatus(s);
    }
  }

  lemma ResponseFits(p: bytes, s: Status, count: nat, token: bytes, info: bytes)
    requires ResponseForm(p, s, count, token, info)
    ensures s.missing == [] && |Token(s)| <= 255 && s.token != Some([])
    ensures FileInfoOk(s.info.value) <==> |s.info.value.path| <= MAX_NAME
  {
    hide ParseFileInfo, HeadForm, AnswerForm;
    InfoFormIff(info, s.info.value);
  }

  lemma ResponseEncodes(s: Status)
    requires s.kind.FILE_INFO_RESPONSE? && s.info.Some? && |Token(s)| <= 255
    ensures EncodeStatus(s).Ok? <==> FileInfoOk(s.info.value)
  {
    hide FileInfoBytes, Token, Pow256, BE;
    Widths();
    if FileInfoOk(s.info.value) {
      StatusHead(s);
      InfoLength(s.info.value);
    }
  }

  lemma InfoLength(i: FileInfo)
    requires FileInfoOk(i)
    ensures |FileInfoBytes(i)| == FILE_INFO_FIXED + |i.path|
  {
    FileInfoLayout(FileInfoFields(i));
    hide Pack, BE;
  }

  lemma DecodesStatus(s: Status)
    requires EncodeStatus(s).Ok?
    requires var f := ParseFrame(EncodeStatus(s).value);
             f.Ok? && f.value.known == Some(STATUS) && ParseStatus(f.value.payload) == Ok(s)
    ensures Decode(Encode(StatusMsg(s)).value) == Ok(StatusMsg(s))
  {
    hide ParseStatus, ParseFrame, EncodeStatus;
  }
}
