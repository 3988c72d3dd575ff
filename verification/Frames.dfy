/** The wire codec of `frames.py`.

    Every `Encode…` function returns `Err` exactly where the source raises; every `Parse…` function is the pure form of
    a decoder.  Decoders that the source writes with a cursor or a loop are also given as methods. */
module Frames {
  import opened Bytes
  import opened Ranges

  const MAGIC: bytes := [0x53, 0x53]
  const VERSION: byte := 1
  const HEADER_SIZE := 10
  const ID_SIZE := 16
  const SHA_SIZE := 32
  const MANIFEST_FIXED := 66
  const DATA_FIXED := 22
  const STATUS_FIXED := 20
  const FILE_INFO_FIXED := 52
  const MAX_TLV := 65535
  const MAX_PAYLOAD := 65535
  const READ_SIZE := 65535
  const MAX_NAME := 4096
  const MAX_RANGES := 2048
  const PEER_AGE_NEVER := 0xFFFF_FFFF

  datatype FrameType = METADATA | DATA | STATUS | BEACON

  datatype ParsedFrame = ParsedFrame(known: Option<FrameType>, raw: byte, flags: byte, payload: bytes)

  datatype Manifest = Manifest(id: bytes, name: bytes, fileSize: int, chunkSize: int, totalChunks: int, sha: bytes,
                               metadata: Dict<int, bytes>)

  datatype Chunk = Chunk(id: bytes, index: int, payload: bytes)

  datatype TransferState = INCOMPLETE | COMPLETE | HASH_MISMATCH | PENDING_METADATA | KEEPALIVE

  datatype StatusKind = TRANSFER | FILE_INFO_RESPONSE

  datatype FileInfo = FileInfo(path: bytes, present: bool, size: int, mtime: int, sha: Option<bytes>)

  datatype Status = Status(id: bytes, kind: StatusKind, state: TransferState, missing: seq<Range>,
                           info: Option<FileInfo>, token: Option<bytes>)

  datatype Role = SENDER | RECEIVER

  datatype Beacon = Beacon(role: Role, id: bytes, peerAge: int)

  // ---------------------------------------------------------------- frame header

  function TypeCode(t: FrameType): (c: byte)
  {
    match t case METADATA => 1 case DATA => 2 case STATUS => 4 case BEACON => 10
  }

  function KnownType(c: byte): (t: Option<FrameType>)
    ensures t.Some? ==> TypeCode(t.value) == c
    ensures t.None? ==> forall k :: TypeCode(k) != c
  {
    if c == 1 then Some(METADATA) else if c == 2 then Some(DATA) else if c == 4 then Some(STATUS)
    else if c == 10 then Some(BEACON) else None
  }

  function EncodeFrame(t: FrameType, payload: bytes, flags: int := 0): (r: Result<bytes>)
  {
    if !(0 <= flags < 256) || !Fits(|payload|, 4) then Err
    else Ok(MAGIC + [VERSION, TypeCode(t), flags, 0] + BE(|payload|, 4) + payload)
  }

  function ParseFrame(raw: bytes): (r: Result<ParsedFrame>)
  {
    if |raw| < HEADER_SIZE || raw[..2] != MAGIC || raw[2] != VERSION then Err
    else if FromBE(raw[6..10]) != |raw| - HEADER_SIZE then Err
    else Ok(ParsedFrame(KnownType(raw[3]), raw[3], raw[4], raw[HEADER_SIZE..]))
  }

  lemma FrameRoundTrip(t: FrameType, payload: bytes, flags: int)
    requires EncodeFrame(t, payload, flags).Ok?
    ensures ParseFrame(EncodeFrame(t, payload, flags).value) == Ok(ParsedFrame(Some(t), TypeCode(t), flags, payload))
  {
    var raw := EncodeFrame(t, payload, flags).value;
    assert raw[..2] == MAGIC && raw[6..10] == BE(|payload|, 4) && raw[HEADER_SIZE..] == payload;
    BERoundTrip(|payload|, 4);
  }

  /** A datagram that decodes is decoded as a whole: none of its proper prefixes or extensions decodes. */
  lemma FrameIsWhole(raw: bytes, k: nat, extra: bytes)
    requires ParseFrame(raw).Ok?
    ensures k < |raw| ==> ParseFrame(raw[..k]).Err?
    ensures extra != [] ==> ParseFrame(raw + extra).Err?
  {
    if HEADER_SIZE <= k < |raw| {
      assert raw[..k][6..10] == raw[6..10];
    }
    assert (raw + extra)[6..10] == raw[6..10];
  }

  /** What `recvfrom` hands out of a datagram: a longer one is cut. */
  function Read(raw: bytes): (s: bytes)
  {
    if |raw| <= READ_SIZE then raw else raw[..READ_SIZE]
  }

  // ---------------------------------------------------------------- TLVs

  predicate TlvOk(e: Entry<int, bytes>)
  {
    0 <= e.key < 256 && |e.value| <= MAX_TLV
  }

  function Tlv(e: Entry<int, bytes>): (s: bytes)
    requires TlvOk(e)
    ensures |s| == 3 + |e.value|
  {
    [e.key] + BE(|e.value|, 2) + e.value
  }

  function TlvsFrom(d: Dict<int, bytes>, i: nat): (s: bytes)
    requires i <= |d| && forall k :: 0 <= k < |d| ==> TlvOk(d[k])
    decreases |d| - i
  {
    if i == |d| then [] else Tlv(d[i]) + TlvsFrom(d, i + 1)
  }

  function EncodeTlvsSpec(d: Dict<int, bytes>): (r: Result<bytes>)
  {
    if (forall k :: 0 <= k < |d| ==> TlvOk(d[k])) && |TlvsFrom(d, 0)| <= MAX_TLV then Ok(TlvsFrom(d, 0)) else Err
  }

  predicate AllTlvOk(d: Dict<int, bytes>)
  {
    forall k :: 0 <= k < |d| ==> TlvOk(d[k])
  }

  /** One turn of the encoder. */
  lemma TlvAppended(out: bytes, d: Dict<int, bytes>, i: nat)
    requires AllTlvOk(d) && i < |d|
    ensures var e := d[i];
            out + TlvsFrom(d, i) == out + ([e.key] + BE(|e.value|, 2)) + e.value + TlvsFrom(d, i + 1)
  {
    var e := d[i];
    var head := [e.key] + BE(|e.value|, 2);
    assert Tlv(e) == head + e.value;
    hide BE;
    assert out + (head + e.value + TlvsFrom(d, i + 1)) == out + head + e.value + TlvsFrom(d, i + 1);
  }

  lemma TlvsDone(out: bytes, d: Dict<int, bytes>)
    requires AllTlvOk(d)
    ensures out + TlvsFrom(d, |d|) == out
  {
  }

  method EncodeTlvs(d: Dict<int, bytes>) returns (r: Result<bytes>)
    ensures r == EncodeTlvsSpec(d)
  {
    hide TlvsFrom, BE;
    var out: bytes := [];
    for i := 0 to |d|
      invariant forall k :: 0 <= k < i ==> TlvOk(d[k])
      invariant AllTlvOk(d) ==> out + TlvsFrom(d, i) == TlvsFrom(d, 0)
    {
      var value := d[i].value;
      if |value| > MAX_TLV || !(0 <= d[i].key < 256) {
        assert !TlvOk(d[i]);
        return Err;
      }
      if AllTlvOk(d) {
        TlvAppended(out, d, i);
      }
      out := out + ([d[i].key] + BE(|value|, 2));
      out := out + value;
    }
    TlvsDone(out, d);
    if |out| > MAX_TLV {
      return Err;
    }
    return Ok(out);
  }

  function ParseTlvsFrom(payload: bytes, cursor: nat, tlvs: Dict<int, bytes>): (r: Result<Dict<int, bytes>>)
    requires cursor <= |payload|
    decreases |payload| - cursor
  {
    if cursor == |payload| then Ok(tlvs)
    else if |payload| - cursor < 3 then Err
    else
      var size := FromBE(payload[cursor + 1..cursor + 3]);
      var start := cursor + 3;
      if |payload| - start < size then Err
      else ParseTlvsFrom(payload, start + size, Put(tlvs, payload[cursor], payload[start..start + size]))
  }

  function ParseTlvs(payload: bytes): (r: Result<Dict<int, bytes>>)
  {
    ParseTlvsFrom(payload, 0, [])
  }

  /** One turn of the decoder. */
  lemma TlvUnfolds(payload: bytes, cursor: nat, tlvs: Dict<int, bytes>)
    requires cursor < |payload|
    ensures ParseTlvsFrom(payload, |payload|, tlvs) == Ok(tlvs)
    ensures ParseTlvsFrom(payload, cursor, tlvs)
         == if |payload| - cursor < 3 then Err
            else
              var start, size := cursor + 3, FromBE(payload[cursor + 1..cursor + 3]);
              if |payload| - start < size then Err
              else ParseTlvsFrom(payload, start + size, Put(tlvs, payload[cursor], payload[start..start + size]))
  {
    hide Put, FromBE;
  }

  method DecodeTlvs(payload: bytes) returns (r: Result<Dict<int, bytes>>)
    ensures r == ParseTlvs(payload)
  {
    hide ParseTlvsFrom, Put, FromBE;
    var cursor := 0;
    var tlvs: Dict<int, bytes> := [];
    if payload == [] {
      NoTlvs();
    }
    while cursor < |payload|
      invariant 0 <= cursor <= |payload|
      invariant ParseTlvsFrom(payload, cursor, tlvs) == ParseTlvs(payload)
      invariant cursor == |payload| ==> ParseTlvs(payload) == Ok(tlvs)
    {
      TlvUnfolds(payload, cursor, tlvs);
      if |payload| - cursor < 3 {
        return Err;
      }
      var key, valueSize := payload[cursor], FromBE(payload[cursor + 1..cursor + 3]);
      ghost var before := cursor;
      cursor := cursor + 3;
      if |payload| - cursor < valueSize {
        return Err;
      }
      tlvs := Put(tlvs, key, payload[cursor..cursor + valueSize]);
      cursor := cursor + valueSize;
      TlvUnfolds(payload, before, tlvs);
    }
    return Ok(tlvs);
  }

  lemma NoTlvs()
    ensures ParseTlvs([]) == Ok([])
  {
  }

  lemma TlvRead(pre: bytes, e: Entry<int, bytes>, post: bytes)
    requires TlvOk(e)
    ensures var p, c := pre + (Tlv(e) + post), |pre|;
            && p[c] == e.key && FromBE(p[c + 1..c + 3]) == |e.value| && p[c + 3..c + 3 + |e.value|] == e.value
            && p == (pre + Tlv(e)) + post
  {
    var p, c := pre + (Tlv(e) + post), |pre|;
    assert p[c + 1..c + 3] == BE(|e.value|, 2);
    Widths();
    BERoundTrip(|e.value|, 2);
  }

  /** The decoder's loop consumes exactly one encoded element. */
  lemma TlvStep(p: bytes, c: nat, e: Entry<int, bytes>, tlvs: Dict<int, bytes>)
    requires c + 3 + |e.value| <= |p|
    requires p[c] == e.key && FromBE(p[c + 1..c + 3]) == |e.value| && p[c + 3..c + 3 + |e.value|] == e.value
    ensures ParseTlvsFrom(p, c, tlvs) == ParseTlvsFrom(p, c + 3 + |e.value|, Put(tlvs, e.key, e.value))
  {
    hide Put, FromBE;
  }

  lemma PutNew(d: Dict<int, bytes>, i: nat)
    requires UniqueKeys(d) && i < |d|
    ensures Put(d[..i], d[i].key, d[i].value) == d[..i + 1]
  {
    assert !Has(d[..i], d[i].key);
    assert d[..i + 1] == d[..i] + [d[i]];
  }

  lemma TlvEnd(d: Dict<int, bytes>, pre: bytes)
    requires forall k :: 0 <= k < |d| ==> TlvOk(d[k])
    ensures ParseTlvsFrom(pre + TlvsFrom(d, |d|), |pre|, d[..|d|]) == Ok(d)
  {
    assert pre + TlvsFrom(d, |d|) == pre && d[..|d|] == d;
  }

  lemma TlvsFromStep(d: Dict<int, bytes>, i: nat)
    requires i < |d| && forall k :: 0 <= k < |d| ==> TlvOk(d[k])
    ensures TlvsFrom(d, i) == Tlv(d[i]) + TlvsFrom(d, i + 1)
  {
  }

  lemma {:induction false} TlvsRoundTrip(d: Dict<int, bytes>, pre: bytes, i: nat)
    requires UniqueKeys(d) && i <= |d| && forall k :: 0 <= k < |d| ==> TlvOk(d[k])
    ensures ParseTlvsFrom(pre + TlvsFrom(d, i), |pre|, d[..i]) == Ok(d)
    decreases |d| - i
  {
    hide *;
    if i == |d| {
      TlvEnd(d, pre);
    } else {
      var element, rest := Tlv(d[i]), TlvsFrom(d, i + 1);
      TlvsFromStep(d, i);
      PutNew(d, i);
      TlvRead(pre, d[i], rest);
      TlvStep(pre + (element + rest), |pre|, d[i], d[..i]);
      TlvsRoundTrip(d, pre + element, i + 1);
    }
  }

  lemma DictRoundTrip(d: Dict<int, bytes>)
    requires UniqueKeys(d) && EncodeTlvsSpec(d).Ok?
    ensures ParseTlvs(EncodeTlvsSpec(d).value) == Ok(d) && |EncodeTlvsSpec(d).value| <= MAX_TLV
  {
    TlvsRoundTrip(d, [], 0);
    assert [] + TlvsFrom(d, 0) == TlvsFrom(d, 0) && d[..0] == [];
  }

  /** The encoded size of a dictionary. */
  function TlvSize(d: Dict<int, bytes>, n: nat): (k: nat)
    requires n <= |d|
  {
    if n == 0 then 0 else TlvSize(d, n - 1) + 3 + |d[n - 1].value|
  }

  lemma {:induction false} TlvsFromSize(d: Dict<int, bytes>, i: nat)
    requires i <= |d| && forall k :: 0 <= k < |d| ==> TlvOk(d[k])
    ensures |TlvsFrom(d, i)| + TlvSize(d, i) == TlvSize(d, |d|)
    decreases |d| - i
  {
    if i < |d| {
      TlvsFromSize(d, i + 1);
    }
  }

  lemma {:induction false} TlvSizeUpdate(d: Dict<int, bytes>, p: nat, e: Entry<int, bytes>, n: nat)
    requires p < |d| && n <= |d|
    ensures TlvSize(d[p := e], n) == TlvSize(d, n) + (if p < n then |e.value| - |d[p].value| else 0)
  {
    if n > 0 {
      TlvSizeUpdate(d, p, e, n - 1);
    }
  }

  lemma {:induction false} TlvSizePrefix(d: Dict<int, bytes>, e: Entry<int, bytes>, n: nat)
    requires n <= |d|
    ensures TlvSize(d + [e], n) == TlvSize(d, n)
  {
    if n > 0 {
      TlvSizePrefix(d, e, n - 1);
    }
  }

  lemma TlvSizePut(d: Dict<int, bytes>, k: int, v: bytes)
    ensures TlvSize(Put(d, k, v), |Put(d, k, v)|) <= TlvSize(d, |d|) + 3 + |v|
  {
    if Has(d, k) {
      TlvSizeUpdate(d, Position(d, k, 0), Entry(k, v), |d|);
    } else {
      TlvSizePrefix(d, Entry(k, v), |d|);
    }
  }

  /** A dictionary whose encoding takes at most `room` octets. */
  ghost predicate Encodable(d: Dict<int, bytes>, room: nat)
  {
    UniqueKeys(d) && (forall k :: 0 <= k < |d| ==> TlvOk(d[k])) && TlvSize(d, |d|) <= room
  }

  lemma EncodableEncodes(d: Dict<int, bytes>)
    requires Encodable(d, MAX_TLV)
    ensures UniqueKeys(d) && EncodeTlvsSpec(d).Ok?
  {
    TlvsFromSize(d, 0);
  }

  lemma PutEncodable(d: Dict<int, bytes>, room: nat, k: byte, v: bytes)
    requires Encodable(d, room) && |v| <= MAX_TLV
    ensures Encodable(Put(d, k, v), room + 3 + |v|)
  {
    PutUnique(d, k, v);
    TlvSizePut(d, k, v);
  }

  /** Whatever bytes a dictionary was decoded from, duplicate keys included, it is no larger than they are. */
  lemma {:induction false} DecodedTlvsEncode(payload: bytes, cursor: nat, tlvs: Dict<int, bytes>)
    requires cursor <= |payload| <= MAX_TLV
    requires Encodable(tlvs, cursor)
    ensures ParseTlvsFrom(payload, cursor, tlvs).Ok? ==>
              Encodable(ParseTlvsFrom(payload, cursor, tlvs).value, |payload|)
    decreases |payload| - cursor
  {
    if cursor < |payload| && |payload| - cursor >= 3 {
      var size := FromBE(payload[cursor + 1..cursor + 3]);
      var start := cursor + 3;
      if |payload| - start >= size {
        var k, v := payload[cursor], payload[start..start + size];
        PutEncodable(tlvs, cursor, k, v);
        DecodedTlvsEncode(payload, start + size, Put(tlvs, k, v));
      }
    }
    hide Encodable, Put, FromBE;
  }

  // ---------------------------------------------------------------- manifest

  /** `ceil(file_size / chunk_size)`, 0 for an empty file. */
  function ExpectedChunks(fileSize: int, chunkSize: int): (n: int)
    requires chunkSize > 0
  {
    if fileSize == 0 then 0 else (fileSize + chunkSize - 1) / chunkSize
  }

  predicate ManifestOk(m: Manifest)
  {
    && m.chunkSize > 0
    && m.totalChunks == ExpectedChunks(m.fileSize, m.chunkSize)
    && 0 < |m.name| <= MAX_NAME
    && EncodeTlvsSpec(m.metadata).Ok?
    && Fits(m.fileSize, 8) && Fits(m.chunkSize, 4) && Fits(m.totalChunks, 4)
  }

  function ManifestFields(m: Manifest): (fs: seq<bytes>)
    requires ManifestOk(m)
  {
    var tlvs := EncodeTlvsSpec(m.metadata).value;
    [Fit(m.id, ID_SIZE), BE(m.fileSize, 8), BE(m.chunkSize, 4), BE(m.totalChunks, 4), Fit(m.sha, SHA_SIZE),
     BE(|m.name|, 2), m.name, BE(|tlvs|, 2), tlvs]
  }

  function EncodeManifest(m: Manifest): (r: Result<bytes>)
  {
    if ManifestOk(m) then EncodeFrame(METADATA, Pack(ManifestFields(m))) else Err
  }

  function ParseManifest(payload: bytes): (r: Result<Manifest>)
  {
    if |payload| < MANIFEST_FIXED + 2 then Err
    else
      var nameSize := FromBE(payload[64..66]);
      if |payload| - MANIFEST_FIXED < nameSize + 2 || nameSize == 0 || nameSize > MAX_NAME then Err
      else
        var cursor := MANIFEST_FIXED + nameSize;
        var tlvSize := FromBE(payload[cursor..cursor + 2]);
        if |payload| - (cursor + 2) != tlvSize then Err
        else
          var metadata := ParseTlvs(payload[cursor + 2..]);
          var fileSize, chunkSize := FromBE(payload[16..24]), FromBE(payload[24..28]);
          var totalChunks := FromBE(payload[28..32]);
          if metadata.Err? || chunkSize == 0 || totalChunks != ExpectedChunks(fileSize, chunkSize) then Err
          else Ok(Manifest(payload[..16], payload[MANIFEST_FIXED..cursor], fileSize, chunkSize, totalChunks,
                           payload[32..64], metadata.value))
  }

  method DecodeManifest(payload: bytes) returns (r: Result<Manifest>)
    ensures r == ParseManifest(payload)
  {
    hide FromBE, ParseTlvs;
    if |payload| < MANIFEST_FIXED + 2 {
      return Err;
    }
    var id, fileSize, chunkSize := payload[..16], FromBE(payload[16..24]), FromBE(payload[24..28]);
    var totalChunks, sha, nameSize := FromBE(payload[28..32]), payload[32..64], FromBE(payload[64..66]);
    var cursor := MANIFEST_FIXED;
    if |payload| - cursor < nameSize + 2 {
      return Err;
    }
    var name := payload[cursor..cursor + nameSize];
    if name == [] || nameSize > MAX_NAME {
      return Err;
    }
    cursor := cursor + nameSize;
    var tlvSize := FromBE(payload[cursor..cursor + 2]);
    cursor := cursor + 2;
    if |payload| - cursor != tlvSize {
      return Err;
    }
    var metadata := DecodeTlvs(payload[cursor..]);
    if metadata.Err? || chunkSize <= 0 {
      return Err;
    }
    var expected := if fileSize != 0 then (fileSize + chunkSize - 1) / chunkSize else 0;
    assert expected == ExpectedChunks(fileSize, chunkSize);
    hide ExpectedChunks;
    if totalChunks != expected {
      return Err;
    }
    return Ok(Manifest(id, name, fileSize, chunkSize, totalChunks, sha, metadata.value));
  }

  /** Where the fields of a manifest end. */
  lemma ManifestOffsets(fs: seq<bytes>)
    requires |fs| == 9 && |fs[0]| == 16 && |fs[1]| == 8 && |fs[2]| == 4 && |fs[3]| == 4 && |fs[4]| == 32 && |fs[5]| == 2
    requires |fs[7]| == 2
    ensures |Packed(fs, 0)| == 0 && |Packed(fs, 1)| == 16 && |Packed(fs, 2)| == 24 && |Packed(fs, 3)| == 28
    ensures |Packed(fs, 4)| == 32 && |Packed(fs, 5)| == 64 && |Packed(fs, 6)| == 66
    ensures |Packed(fs, 7)| == 66 + |fs[6]| && |Packed(fs, 8)| == 68 + |fs[6]|
    ensures |Packed(fs, 9)| == 68 + |fs[6]| + |fs[8]|
  {
    assert |Packed(fs, 0)| == 0;
    PackedLength(fs, 1);
    PackedLength(fs, 2);
    PackedLength(fs, 3);
    PackedLength(fs, 4);
    PackedLength(fs, 5);
    PackedLength(fs, 6);
    PackedLength(fs, 7);
    PackedLength(fs, 8);
    PackedLength(fs, 9);
    hide Packed;
  }

  lemma PackedLength(fs: seq<bytes>, k: nat)
    requires 0 < k <= |fs|
    ensures |Packed(fs, k)| == |Packed(fs, k - 1)| + |fs[k - 1]|
  {
  }

  lemma ManifestLayout(fs: seq<bytes>)
    requires |fs| == 9 && |fs[0]| == 16 && |fs[1]| == 8 && |fs[2]| == 4 && |fs[3]| == 4 && |fs[4]| == 32 && |fs[5]| == 2
    requires |fs[7]| == 2
    ensures var p, n := Pack(fs), |fs[6]|;
            && |p| == 68 + n + |fs[8]|
            && p[..16] == fs[0] && p[16..24] == fs[1] && p[24..28] == fs[2] && p[28..32] == fs[3] && p[32..64] == fs[4]
            && p[64..66] == fs[5] && p[66..66 + n] == fs[6] && p[66 + n..68 + n] == fs[7] && p[68 + n..] == fs[8]
  {
    hide Packed;
    ManifestOffsets(fs);
    PackedField(fs, 0, 9);
    PackedField(fs, 1, 9);
    PackedField(fs, 2, 9);
    PackedField(fs, 3, 9);
    PackedField(fs, 4, 9);
    PackedField(fs, 5, 9);
    PackedField(fs, 6, 9);
    PackedField(fs, 7, 9);
    PackedField(fs, 8, 9);
  }

  /** Decoding an encoded manifest gives it back, its id and hash brought to their wire sizes. */
  lemma ManifestRoundTrip(m: Manifest)
    requires EncodeManifest(m).Ok? && UniqueKeys(m.metadata)
    ensures ParseFrame(EncodeManifest(m).value)
         == Ok(ParsedFrame(Some(METADATA), 1, 0, Pack(ManifestFields(m))))
    ensures ParseManifest(Pack(ManifestFields(m))) == Ok(m.(id := Fit(m.id, ID_SIZE), sha := Fit(m.sha, SHA_SIZE)))
  {
    FrameRoundTrip(METADATA, Pack(ManifestFields(m)), 0);
    hide Pack, ParseFrame, ParseManifest, ManifestFields, Fit, ManifestOk;
    ManifestReturns(m);
  }

  lemma ManifestReturns(m: Manifest)
    requires ManifestOk(m) && UniqueKeys(m.metadata)
    ensures ParseManifest(Pack(ManifestFields(m))) == Ok(m.(id := Fit(m.id, ID_SIZE), sha := Fit(m.sha, SHA_SIZE)))
  {
    ManifestFieldsReturn(m);
    hide Pack, FromBE, BE, EncodeTlvsSpec, ParseTlvs, ExpectedChunks, ParseManifest;
    ManifestLayout(ManifestFields(m));
    ParsesManifest(Pack(ManifestFields(m)), |m.name|);
  }

  /** Reading a manifest whose name has `n` octets. */
  lemma ParsesManifest(p: bytes, n: nat)
    requires |p| >= MANIFEST_FIXED + n + 2 && FromBE(p[64..66]) == n && 0 < n <= MAX_NAME
    requires FromBE(p[MANIFEST_FIXED + n..MANIFEST_FIXED + n + 2]) == |p| - (MANIFEST_FIXED + n + 2)
    requires ParseTlvs(p[MANIFEST_FIXED + n + 2..]).Ok? && FromBE(p[24..28]) > 0
    requires FromBE(p[28..32]) == ExpectedChunks(FromBE(p[16..24]), FromBE(p[24..28]))
    ensures ParseManifest(p)
         == Ok(Manifest(p[..16], p[MANIFEST_FIXED..MANIFEST_FIXED + n], FromBE(p[16..24]), FromBE(p[24..28]),
                        FromBE(p[28..32]), p[32..64], ParseTlvs(p[MANIFEST_FIXED + n + 2..]).value))
  {
    hide FromBE, ParseTlvs, ExpectedChunks;
  }

  /** Every field of a manifest comes back from its octets. */
  lemma ManifestFieldsReturn(m: Manifest)
    requires ManifestOk(m) && UniqueKeys(m.metadata)
    ensures var fs := ManifestFields(m);
            && |fs| == 9 && |fs[1]| == 8 && |fs[2]| == 4 && |fs[3]| == 4 && |fs[5]| == 2 && |fs[7]| == 2
            && FromBE(fs[1]) == m.fileSize && FromBE(fs[2]) == m.chunkSize && FromBE(fs[3]) == m.totalChunks
            && FromBE(fs[5]) == |m.name| && FromBE(fs[7]) == |fs[8]| && ParseTlvs(fs[8]) == Ok(m.metadata)
  {
    Widths();
    DictRoundTrip(m.metadata);
    var tlvs := EncodeTlvsSpec(m.metadata).value;
    BERoundTrip(m.fileSize, 8);
    BERoundTrip(m.chunkSize, 4);
    BERoundTrip(m.totalChunks, 4);
    BERoundTrip(|m.name|, 2);
    BERoundTrip(|tlvs|, 2);
    hide FromBE, BE, EncodeTlvsSpec, ParseTlvs, ExpectedChunks;
  }

  /** Every manifest a receiver accepts, whatever bytes it came from, re-encodes and decodes to itself. */
  lemma AcceptedManifestReencodes(payload: bytes)
    requires ParseManifest(payload).Ok?
    ensures var m := ParseManifest(payload).value;
            && EncodeManifest(m).Ok? && UniqueKeys(m.metadata)
            && ParseManifest(Pack(ManifestFields(m))) == Ok(m)
  {
    var m := ParseManifest(payload).value;
    AcceptedFits(payload);
    hide ParseManifest, EncodeTlvsSpec, Pack, FromBE, BE, ExpectedChunks;
    Widths();
    ManifestLayout(ManifestFields(m));
    ManifestRoundTrip(m);
  }

  /** What the decoder accepts is within every limit of the encoder. */
  lemma AcceptedFits(payload: bytes)
    requires ParseManifest(payload).Ok?
    ensures var m := ParseManifest(payload).value;
            && ManifestOk(m) && UniqueKeys(m.metadata) && |m.id| == ID_SIZE && |m.sha| == SHA_SIZE
            && |EncodeTlvsSpec(m.metadata).value| <= MAX_TLV
  {
    var m := ParseManifest(payload).value;
    var cursor := MANIFEST_FIXED + FromBE(payload[64..66]);
    Widths();
    FromBEFits(payload[cursor..cursor + 2]);
    FromBEFits(payload[16..24]);
    FromBEFits(payload[24..28]);
    FromBEFits(payload[28..32]);
    DecodedTlvsEncode(payload[cursor + 2..], 0, []);
    assert Encodable(m.metadata, MAX_TLV);
    EncodableEncodes(m.metadata);
    hide EncodeTlvsSpec, ExpectedChunks;
  }

  // ---------------------------------------------------------------- data chunks

  function EncodeChunk(c: Chunk): (r: Result<bytes>)
  {
    if |c.payload| > MAX_PAYLOAD || !Fits(c.index, 4) then Err
    else EncodeFrame(DATA, Pack([Fit(c.id, ID_SIZE), BE(c.index, 4), BE(|c.payload|, 2), c.payload]))
  }

  function ParseChunk(payload: bytes): (r: Result<Chunk>)
  {
    if |payload| < DATA_FIXED || FromBE(payload[20..22]) != |payload| - DATA_FIXED then Err
    else Ok(Chunk(payload[..16], FromBE(payload[16..20]), payload[DATA_FIXED..]))
  }

  /** A DATA frame takes up to 65535 octets of payload and a 32-bit index, and nothing beyond. */
  lemma ChunkEncodes(c: Chunk)
    ensures EncodeChunk(c).Ok? <==> |c.payload| <= MAX_PAYLOAD && Fits(c.index, 4)
  {
    if |c.payload| <= MAX_PAYLOAD && Fits(c.index, 4) {
      var fs := [Fit(c.id, ID_SIZE), BE(c.index, 4), BE(|c.payload|, 2), c.payload];
      assert |Packed(fs, 0)| == 0;
      PackedField(fs, 0, 4);
      PackedField(fs, 1, 4);
      PackedField(fs, 2, 4);
      PackedField(fs, 3, 4);
      Widths();
    }
  }

  /** A DATA frame is 32 octets longer than its payload. */
  lemma ChunkFrameSize(c: Chunk)
    requires EncodeChunk(c).Ok?
    ensures |EncodeChunk(c).value| == HEADER_SIZE + DATA_FIXED + |c.payload|
  {
    var fs := [Fit(c.id, ID_SIZE), BE(c.index, 4), BE(|c.payload|, 2), c.payload];
    assert |Packed(fs, 0)| == 0;
    PackedField(fs, 0, 4);
    PackedField(fs, 1, 4);
    PackedField(fs, 2, 4);
    PackedField(fs, 3, 4);
    Widths();
  }

  lemma ChunkRoundTrip(c: Chunk)
    requires EncodeChunk(c).Ok?
    ensures var f := ParseFrame(EncodeChunk(c).value);
            && f.Ok? && f.value.known == Some(DATA) && ParseChunk(f.value.payload) == Ok(c.(id := Fit(c.id, ID_SIZE)))
  {
    var fs := [Fit(c.id, ID_SIZE), BE(c.index, 4), BE(|c.payload|, 2), c.payload];
    FrameRoundTrip(DATA, Pack(fs), 0);
    assert |Packed(fs, 0)| == 0;
    PackedField(fs, 0, 4);
    PackedField(fs, 1, 4);
    PackedField(fs, 2, 4);
    PackedField(fs, 3, 4);
    Widths();
    BERoundTrip(c.index, 4);
    BERoundTrip(|c.payload|, 2);
  }

  // ---------------------------------------------------------------- range lists

  predicate RangeFits(r: Range)
  {
    Fits(r.start, 4) && Fits(r.end, 4)
  }

  function RangeBytes(rs: seq<Range>, n: nat): (s: bytes)
    requires n <= |rs| && forall k :: 0 <= k < |rs| ==> RangeFits(rs[k])
    ensures |s| == 8 * n
  {
    if n == 0 then [] else RangeBytes(rs, n - 1) + (BE(rs[n - 1].start, 4) + BE(rs[n - 1].end, 4))
  }

  function EncodeRangesSpec(rs: seq<Range>): (r: Result<bytes>)
  {
    if forall k :: 0 <= k < |Merged(rs)| ==> RangeFits(Merged(rs)[k])
    then Ok(RangeBytes(Merged(rs), |Merged(rs)|)) else Err
  }

  method EncodeRanges(rs: seq<Range>) returns (r: Result<bytes>)
    ensures r == EncodeRangesSpec(rs)
  {
    var merged := MergeRanges(rs);
    var payload: bytes := [];
    for i := 0 to |merged|
      invariant forall k :: 0 <= k < i ==> RangeFits(merged[k])
      invariant (forall k :: 0 <= k < |merged| ==> RangeFits(merged[k])) ==> payload == RangeBytes(merged, i)
    {
      if !RangeFits(merged[i]) {
        return Err;
      }
      payload := payload + (BE(merged[i].start, 4) + BE(merged[i].end, 4));
    }
    return Ok(payload);
  }

  /** The pair at position `k` of a range payload. */
  function RangeAt(payload: bytes, k: nat): (r: Range)
    requires 8 * k + 8 <= |payload|
  {
    PairOf(payload[8 * k..8 * k + 8])
  }

  function PairOf(s: bytes): (r: Range)
    requires |s| == 8
  {
    Range(FromBE(s[..4]), FromBE(s[4..]))
  }

  /** The pairs of a range payload, as they stand on the wire. */
  function WireRanges(payload: bytes): (rs: seq<Range>)
    requires |payload| % 8 == 0
    ensures |rs| == |payload| / 8
  {
    seq(|payload| / 8, k requires 0 <= k < |payload| / 8 => RangeAt(payload, k))
  }

  function ParseRanges(payload: bytes): (r: Result<seq<Range>>)
  {
    if |payload| % 8 != 0 then Err
    else if exists k :: 0 <= k < |WireRanges(payload)| && WireRanges(payload)[k].start >= WireRanges(payload)[k].end
    then Err
    else Ok(Merged(WireRanges(payload)))
  }

  method DecodeRanges(payload: bytes) returns (r: Result<seq<Range>>)
    ensures r == ParseRanges(payload)
  {
    if |payload| % 8 != 0 {
      return Err;
    }
    var ranges: seq<Range> := [];
    var i := 0;
    while i < |payload| / 8
      invariant 0 <= i <= |payload| / 8
      invariant ranges == WireRanges(payload)[..i]
      invariant forall k :: 0 <= k < i ==> WireRanges(payload)[k].start < WireRanges(payload)[k].end
    {
      var range := RangeAt(payload, i);
      assert range == WireRanges(payload)[i];
      if range.start >= range.end {
        return Err;
      }
      ranges := ranges + [range];
      i := i + 1;
    }
    assert ranges == WireRanges(payload);
    var merged := MergeRanges(ranges);
    return Ok(merged);
  }

  lemma PairRoundTrip(r: Range)
    requires RangeFits(r)
    ensures PairOf(BE(r.start, 4) + BE(r.end, 4)) == r
  {
    BERoundTrip(r.start, 4);
    BERoundTrip(r.end, 4);
  }

  lemma SliceOfPrefix(s: bytes, t: bytes, a: nat, b: nat)
    requires a <= b <= |s|
    ensures (s + t)[a..b] == s[a..b]
  {
  }

  lemma {:induction false} RangeBytesAt(rs: seq<Range>, n: nat, k: nat)
    requires k < n <= |rs| && forall i :: 0 <= i < |rs| ==> RangeFits(rs[i])
    ensures RangeBytes(rs, n)[8 * k..8 * k + 8] == BE(rs[k].start, 4) + BE(rs[k].end, 4)
  {
    var front, last := RangeBytes(rs, n - 1), BE(rs[n - 1].start, 4) + BE(rs[n - 1].end, 4);
    if k < n - 1 {
      RangeBytesAt(rs, n - 1, k);
      SliceOfPrefix(front, last, 8 * k, 8 * k + 8);
    }
  }

  /** What the decoder makes of an encoded list: the merged list, unless merging left an empty or inverted pair,
      which `decode_ranges` refuses although `encode_ranges` wrote it. */
  lemma RangesRoundTrip(rs: seq<Range>)
    requires EncodeRangesSpec(rs).Ok?
    ensures |EncodeRangesSpec(rs).value| == 8 * |Merged(rs)|
    ensures ParseRanges(EncodeRangesSpec(rs).value).Ok? <==> Nonempty(Merged(rs))
    ensures Nonempty(Merged(rs)) ==> ParseRanges(EncodeRangesSpec(rs).value) == Ok(Merged(rs))
  {
    var m := Merged(rs);
    var s := RangeBytes(m, |m|);
    forall k | 0 <= k < |m| ensures WireRanges(s)[k] == m[k] {
      RangeBytesAt(m, |m|, k);
      PairRoundTrip(m[k]);
    }
    assert WireRanges(s) == m;
    if Nonempty(m) {
      MergedMeaning(rs);
      MergedOfCanonical(m);
    }
  }

  /** An accepted list that does not come back: the empty pair (5, 5) encodes, and its encoding is refused. */
  lemma EmptyRangeDoesNotReturn()
    ensures EncodeRangesSpec([Range(5, 5)]).Ok? && ParseRanges(EncodeRangesSpec([Range(5, 5)]).value).Err?
  {
    var rs := [Range(5, 5)];
    assert Sorted(rs, 0) == [] && MergePrefix(Sorted(rs, 1), 0) == [];
    assert Sorted(rs, 1) == rs;
    assert Merged(rs) == rs;
    Widths();
    RangesRoundTrip(rs);
    assert !(rs[0].start < rs[0].end);
  }

  // ---------------------------------------------------------------- file info

  /** The hash field of a file info that carries no hash. */
  function NoSha(): (s: bytes)
    ensures |s| == SHA_SIZE
  {
    Fit([], SHA_SIZE)
  }

  predicate FileInfoOk(i: FileInfo)
  {
    && 0 < |i.path| <= MAX_NAME
    && (i.sha.Some? ==> |i.sha.value| == SHA_SIZE)
    && Fits(i.size, 8) && Fits(i.mtime, 8)
  }

  function FileInfoFields(i: FileInfo): (fs: seq<bytes>)
    requires FileInfoOk(i)
  {
    [[if i.present then 1 else 0], [if i.sha.Some? then 1 else 0], BE(i.size, 8), BE(i.mtime, 8),
     if i.sha.Some? then i.sha.value else NoSha(), BE(|i.path|, 2), i.path]
  }

  function FileInfoBytes(i: FileInfo): (s: bytes)
    requires FileInfoOk(i)
  {
    Pack(FileInfoFields(i))
  }

  function ParseFileInfo(payload: bytes): (r: Result<FileInfo>)
  {
    if |payload| <= FILE_INFO_FIXED || FromBE(payload[50..52]) != |payload| - FILE_INFO_FIXED then Err
    else Ok(FileInfo(payload[FILE_INFO_FIXED..], payload[0] != 0, FromBE(payload[2..10]), FromBE(payload[10..18]),
                     if payload[1] != 0 then Some(payload[18..50]) else None))
  }

  lemma FileInfoLayout(fs: seq<bytes>)
    requires |fs| == 7 && |fs[0]| == 1 && |fs[1]| == 1 && |fs[2]| == 8 && |fs[3]| == 8 && |fs[4]| == 32 && |fs[5]| == 2
    ensures var p := Pack(fs);
            && |p| == 52 + |fs[6]| && p[0..1] == fs[0] && p[1..2] == fs[1] && p[2..10] == fs[2]
            && p[10..18] == fs[3] && p[18..50] == fs[4] && p[50..52] == fs[5] && p[52..] == fs[6]
  {
    assert |Packed(fs, 0)| == 0;
    PackedField(fs, 0, 7);
    PackedField(fs, 1, 7);
    PackedField(fs, 2, 7);
    PackedField(fs, 3, 7);
    PackedField(fs, 4, 7);
    PackedField(fs, 5, 7);
    PackedField(fs, 6, 7);
    hide Packed;
  }

  lemma FileInfoRoundTrip(i: FileInfo)
    requires FileInfoOk(i)
    ensures ParseFileInfo(FileInfoBytes(i)) == Ok(i)
  {
    FileInfoLayout(FileInfoFields(i));
    hide Pack, FromBE, BE;
    var p := FileInfoBytes(i);
    assert p[0] == p[0..1][0] && p[1] == p[1..2][0];
    Widths();
    BERoundTrip(i.size, 8);
    BERoundTrip(i.mtime, 8);
    BERoundTrip(|i.path|, 2);
  }

  // ---------------------------------------------------------------- status

  function StateCode(s: TransferState): (c: byte)
  {
    match s
    case INCOMPLETE => 0 case COMPLETE => 1 case HASH_MISMATCH => 2 case PENDING_METADATA => 3 case KEEPALIVE => 4
  }

  function StateOf(c: byte): (s: Option<TransferState>)
  {
    if c == 0 then Some(INCOMPLETE) else if c == 1 then Some(COMPLETE) else if c == 2 then Some(HASH_MISMATCH)
    else if c == 3 then Some(PENDING_METADATA) else if c == 4 then Some(KEEPALIVE) else None
  }

  function Token(s: Status): (t: bytes)
  {
    if s.token.Some? then s.token.value else []
  }

  /** The kind byte, the variable part and the range count of an encodable status. */
  datatype Tail = Tail(kind: byte, body: bytes, count: nat)

  function StatusTail(s: Status): (r: Result<Tail>)
    ensures r.Ok? && s.kind.TRANSFER? ==> r.value.count <= MAX_RANGES
    ensures r.Ok? && s.kind.FILE_INFO_RESPONSE? ==> r.value.count == 0
  {
    match s.kind
    case TRANSFER =>
      var ranges := EncodeRangesSpec(s.missing);
      if |s.missing| > MAX_RANGES || ranges.Err? then Err
      else Ok(Tail(0, ranges.value, |Merged(s.missing)|))
    case FILE_INFO_RESPONSE =>
      if s.info.None? || !FileInfoOk(s.info.value) || |Token(s)| > 255 then Err
      else
        var size: byte := |Token(s)|;
        Ok(Tail(1, [size] + Token(s) + FileInfoBytes(s.info.value), 0))
  }

  function EncodeStatus(s: Status): (r: Result<bytes>)
  {
    var t := StatusTail(s);
    if t.Err? then Err
    else Widths(); EncodeFrame(STATUS, Pack([Fit(s.id, ID_SIZE), [t.value.kind], [StateCode(s.state)],
                                             BE(t.value.count, 2), t.value.body]))
  }

  function ParseStatus(payload: bytes): (r: Result<Status>)
  {
    if |payload| < STATUS_FIXED then Err
    else
      var state := StateOf(payload[17]);
      var count := FromBE(payload[18..20]);
      if payload[16] > 1 || state.None? || count > MAX_RANGES then Err
      else if payload[16] == 0 then
        var ranges := ParseRanges(payload[20..]);
        if |payload| - 20 != count * 8 || ranges.Err? then Err
        else Ok(Status(payload[..16], TRANSFER, state.value, ranges.value, None, None))
      else if |payload| < 21 || |payload| - 21 < payload[20] then Err
      else
        var size := payload[20];
        var info := ParseFileInfo(payload[21 + size..]);
        if info.Err? then Err
        else Ok(Status(payload[..16], FILE_INFO_RESPONSE, state.value, [], Some(info.value),
                       if size == 0 then None else Some(payload[21..21 + size])))
  }

  method DecodeStatus(payload: bytes) returns (r: Result<Status>)
    ensures r == ParseStatus(payload)
  {
    if |payload| < STATUS_FIXED {
      return Err;
    }
    var id, rawKind, rawState, rangeCount := payload[..16], payload[16], payload[17], FromBE(payload[18..20]);
    var cursor := STATUS_FIXED;
    var state := StateOf(rawState);
    if rawKind > 1 || rangeCount > MAX_RANGES || state.None? {
      return Err;
    }
    if rawKind == 0 {
      if |payload[cursor..]| != rangeCount * 8 {
        return Err;
      }
      var ranges := DecodeRanges(payload[cursor..]);
      if ranges.Err? {
        return Err;
      }
      return Ok(Status(id, TRANSFER, state.value, ranges.value, None, None));
    }
    if |payload| - cursor < 1 {
      return Err;
    }
    var tokenSize := payload[cursor];
    cursor := cursor + 1;
    if |payload| - cursor < tokenSize {
      return Err;
    }
    var token := payload[cursor..cursor + tokenSize];
    cursor := cursor + tokenSize;
    var info := ParseFileInfo(payload[cursor..]);
    if info.Err? {
      return Err;
    }
    return Ok(Status(id, FILE_INFO_RESPONSE, state.value, [], Some(info.value), if token == [] then None else Some(token)));
  }

  /** What a status can carry over the wire: merged ranges or a file info, an empty token as no token. */
  function OnWire(s: Status): (w: Status)
  {
    match s.kind
    case TRANSFER => Status(Fit(s.id, ID_SIZE), TRANSFER, s.state, Merged(s.missing), None, None)
    case FILE_INFO_RESPONSE =>
      Status(Fit(s.id, ID_SIZE), FILE_INFO_RESPONSE, s.state, [], s.info, if Token(s) == [] then None else Some(Token(s)))
  }

  lemma StatusLayout(id: bytes, kind: byte, state: byte, count: bytes, tail: bytes)
    requires |id| == 16 && |count| == 2
    ensures var p := Pack([id, [kind], [state], count, tail]);
            && |p| == 20 + |tail| && p[..16] == id && p[16] == kind && p[17] == state && p[18..20] == count
            && p[20..] == tail
  {
    var fs := [id, [kind], [state], count, tail];
    var p := Pack(fs);
    assert |Packed(fs, 0)| == 0;
    PackedField(fs, 0, 5);
    PackedField(fs, 1, 5);
    PackedField(fs, 2, 5);
    PackedField(fs, 3, 5);
    PackedField(fs, 4, 5);
    assert p[16] == p[16..17][0] && p[17] == p[17..18][0];
  }

  function StatusPayload(s: Status): (p: bytes)
    requires StatusTail(s).Ok?
  {
    var t := StatusTail(s).value;
    Pack([Fit(s.id, ID_SIZE), [t.kind], [StateCode(s.state)], BE(t.count, 2), t.body])
  }

  lemma StatusHead(s: Status)
    requires StatusTail(s).Ok?
    ensures var p, t := StatusPayload(s), StatusTail(s).value;
            && |p| == 20 + |t.body| && p[..16] == Fit(s.id, ID_SIZE) && p[16] == t.kind
            && StateOf(p[17]) == Some(s.state) && FromBE(p[18..20]) == t.count && p[20..] == t.body
  {
    var t := StatusTail(s).value;
    StatusLayout(Fit(s.id, ID_SIZE), t.kind, StateCode(s.state), BE(t.count, 2), t.body);
    Widths();
    BERoundTrip(t.count, 2);
  }

  lemma TransferStatusRoundTrip(s: Status)
    requires s.kind.TRANSFER? && StatusTail(s).Ok?
    ensures ParseStatus(StatusPayload(s)).Ok? <==> Nonempty(Merged(s.missing))
    ensures ParseStatus(StatusPayload(s)).Ok? ==> ParseStatus(StatusPayload(s)) == Ok(OnWire(s))
  {
    StatusHead(s);
    RangesRoundTrip(s.missing);
    hide StatusPayload, ParseRanges, Merged, Fit, Nonempty, FromBE;
  }

  lemma FileInfoTail(s: Status)
    requires s.kind.FILE_INFO_RESPONSE? && StatusTail(s).Ok?
    ensures var tail, n := StatusTail(s).value.body, |Token(s)|;
            && |tail| >= 1 + n && tail[0] == n && tail[1..1 + n] == Token(s)
            && ParseFileInfo(tail[1 + n..]) == Ok(s.info.value)
  {
    var tail, n := StatusTail(s).value.body, |Token(s)|;
    assert tail[1 + n..] == FileInfoBytes(s.info.value);
    FileInfoRoundTrip(s.info.value);
  }

  lemma FileInfoStatusRoundTrip(s: Status)
    requires s.kind.FILE_INFO_RESPONSE? && StatusTail(s).Ok?
    ensures ParseStatus(StatusPayload(s)) == Ok(OnWire(s))
  {
    StatusHead(s);
    FileInfoTail(s);
    FileInfoIs(s);
    var p, tail, n := StatusPayload(s), StatusTail(s).value.body, |Token(s)|;
    hide StatusPayload, StatusTail, ParseFileInfo, Fit, FromBE, StateOf, Token;
    assert p[20] == tail[0] && p[21..21 + n] == tail[1..1 + n] && p[21 + n..] == tail[1 + n..];
    ParsesFileInfo(p, n);
  }

  lemma FileInfoIs(s: Status)
    requires s.kind.FILE_INFO_RESPONSE? && StatusTail(s).Ok?
    ensures s.info.Some? && StatusTail(s).value.kind == 1 && StatusTail(s).value.count == 0
  {
    hide FileInfoBytes, FileInfoOk, Token;
  }

  /** Reading a status whose kind octet says file info. */
  lemma ParsesFileInfo(p: bytes, n: nat)
    requires |p| >= 21 + n && p[16] == 1 && p[20] == n && FromBE(p[18..20]) == 0
    requires StateOf(p[17]).Some? && ParseFileInfo(p[21 + n..]).Ok?
    ensures ParseStatus(p)
         == Ok(Status(p[..16], FILE_INFO_RESPONSE, StateOf(p[17]).value, [], Some(ParseFileInfo(p[21 + n..]).value),
                      if n == 0 then None else Some(p[21..21 + n])))
  {
    hide StateOf, ParseFileInfo, ParseRanges, FromBE;
  }

  /** A status comes back as `OnWire` says.  A TRANSFER status comes back exactly when merging leaves no empty or
      inverted pair; a FILE_INFO_RESPONSE always does. */
  lemma StatusRoundTrip(s: Status)
    requires EncodeStatus(s).Ok?
    ensures var f := ParseFrame(EncodeStatus(s).value);
            && f.Ok? && f.value.known == Some(STATUS)
            && (ParseStatus(f.value.payload).Ok? <==> s.kind.FILE_INFO_RESPONSE? || Nonempty(Merged(s.missing)))
            && (ParseStatus(f.value.payload).Ok? ==> ParseStatus(f.value.payload) == Ok(OnWire(s)))
  {
    FrameRoundTrip(STATUS, StatusPayload(s), 0);
    if s.kind.TRANSFER? {
      TransferStatusRoundTrip(s);
    } else {
      FileInfoStatusRoundTrip(s);
    }
    hide ParseStatus, ParseFrame, OnWire;
  }

  // ---------------------------------------------------------------- beacon

  function RoleCode(r: Role): (c: byte)
  {
    if r.SENDER? then 1 else 2
  }

  function EncodeBeacon(b: Beacon): (r: Result<bytes>)
  {
    if |b.id| != ID_SIZE || !Fits(b.peerAge, 4) then Err
    else EncodeFrame(BEACON, [RoleCode(b.role)] + b.id + BE(b.peerAge, 4))
  }

  function ParseBeacon(payload: bytes): (r: Result<Beacon>)
  {
    if |payload| != 21 && |payload| != 17 then Err
    else if payload[0] != 1 && payload[0] != 2 then Err
    else Ok(Beacon(if payload[0] == 1 then SENDER else RECEIVER, payload[1..17],
                   if |payload| == 21 then FromBE(payload[17..]) else PEER_AGE_NEVER))
  }

  lemma BeaconRoundTrip(b: Beacon)
    requires EncodeBeacon(b).Ok?
    ensures var f := ParseFrame(EncodeBeacon(b).value);
            f.Ok? && f.value.known == Some(BEACON) && ParseBeacon(f.value.payload) == Ok(b)
    ensures ParseBeacon(ParseFrame(EncodeBeacon(b).value).value.payload[..17]) == Ok(b.(peerAge := PEER_AGE_NEVER))
  {
    var p := [RoleCode(b.role)] + b.id + BE(b.peerAge, 4);
    FrameRoundTrip(BEACON, p, 0);
    assert p[1..17] == b.id && p[17..] == BE(b.peerAge, 4) && p[..17][1..17] == b.id;
    BERoundTrip(b.peerAge, 4);
  }

  // ---------------------------------------------------------------- messages

  /** What a datagram means to the endpoint that receives it. */
  datatype Message = MetadataMsg(manifest: Manifest) | DataMsg(chunk: Chunk) | StatusMsg(status: Status)
                   | BeaconMsg(beacon: Beacon)

  function Encode(m: Message): (r: Result<bytes>)
  {
    match m
    case MetadataMsg(manifest) => EncodeManifest(manifest)
    case DataMsg(chunk) => EncodeChunk(chunk)
    case StatusMsg(status) => EncodeStatus(status)
    case BeaconMsg(beacon) => EncodeBeacon(beacon)
  }

  function Decode(raw: bytes): (r: Result<Message>)
  {
    var f := ParseFrame(raw);
    if f.Err? then Err
    else
      match f.value.known
      case None => Err
      case Some(METADATA) =>
        var m := ParseManifest(f.value.payload); if m.Err? then Err else Ok(MetadataMsg(m.value))
      case Some(DATA) =>
        var c := ParseChunk(f.value.payload); if c.Err? then Err else Ok(DataMsg(c.value))
      case Some(STATUS) =>
        var s := ParseStatus(f.value.payload); if s.Err? then Err else Ok(StatusMsg(s.value))
      case Some(BEACON) =>
        var b := ParseBeacon(f.value.payload); if b.Err? then Err else Ok(BeaconMsg(b.value))
  }

  /** The messages that a datagram carries unchanged. */
  ghost predicate Faithful(m: Message)
  {
    match m
    case MetadataMsg(x) => |x.id| == ID_SIZE && |x.sha| == SHA_SIZE && UniqueKeys(x.metadata)
    case DataMsg(c) => |c.id| == ID_SIZE
    case StatusMsg(s) => |s.id| == ID_SIZE && s.kind.TRANSFER? && Canonical(s.missing) && s.info.None? && s.token.None?
    case BeaconMsg(b) => true
  }

  lemma MessageRoundTrip(m: Message)
    requires Faithful(m) && Encode(m).Ok?
    ensures Decode(Encode(m).value) == Ok(m)
  {
    match m
    case MetadataMsg(x) =>
      ManifestRoundTrip(x);
    case DataMsg(c) =>
      ChunkRoundTrip(c);
    case StatusMsg(s) =>
      MergedOfCanonical(s.missing);
      StatusRoundTrip(s);
    case BeaconMsg(b) =>
      BeaconRoundTrip(b);
  }

  /** Every encoded message is a whole frame, whether or not its payload decodes. */
  lemma EncodedIsFrame(m: Message)
    requires Encode(m).Ok?
    ensures ParseFrame(Encode(m).value).Ok?
  {
    match m
    case MetadataMsg(x) => FrameRoundTrip(METADATA, Pack(ManifestFields(x)), 0);
    case DataMsg(c) => ChunkRoundTrip(c);
    case StatusMsg(s) => FrameRoundTrip(STATUS, StatusPayload(s), 0);
    case BeaconMsg(b) => BeaconRoundTrip(b);
  }

  /** A message whose frame is longer than one read is refused where it is read. */
  lemma CutIsRefused(m: Message)
    requires Encode(m).Ok? && |Encode(m).value| > READ_SIZE
    ensures Decode(Read(Encode(m).value)).Err?
  {
    EncodedIsFrame(m);
    FrameIsWhole(Encode(m).value, READ_SIZE, []);
    hide Encode, ParseFrame;
  }
}
