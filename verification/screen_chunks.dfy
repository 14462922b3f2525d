/** Screen frames as datagrams: one packet when they fit, numbered chunks when they do not. */
module ScreenChunks {
  import opened Common

  const DATAGRAM_MAX: nat := 60_000
  const CHUNK_PAYLOAD: nat := 48_000
  const CHUNK_LIMIT: nat := 65_535
  const PACKET_MAGIC: Bytes := [0x43, 0x53, 0x33, 0x35]
  const CHUNK_MAGIC: Bytes := [0x43, 0x53, 0x33, 0x36]

  function Pow256(w: nat): nat {
    if w == 0 then 1 else 256 * Pow256(w - 1)
  }

  /** `to_be_bytes` of a `w`-byte unsigned integer. */
  function Be(w: nat, n: nat): (b: Bytes)
    ensures |b| == w
  {
    if w == 0 then [] else Be(w - 1, n / 256) + [Low(n)]
  }

  function FromBe(b: Bytes): nat {
    if b == [] then 0 else 256 * FromBe(b[..|b| - 1]) + b[|b| - 1]
  }

  lemma {:induction false} BeRoundTrip(w: nat, n: nat)
    requires n < Pow256(w)
    ensures FromBe(Be(w, n)) == n
  {
    if w > 0 {
      BeRoundTrip(w - 1, n / 256);
      assert Be(w, n)[..w - 1] == Be(w - 1, n / 256);
    }
  }

  lemma FieldRoundTrips(frame: nat, a: nat, ts: nat)
    requires frame < 0x1_0000_0000 && a < 0x1_0000 && ts < 0x1_0000_0000_0000_0000
    ensures FromBe(Be(4, frame)) == frame && FromBe(Be(2, a)) == a && FromBe(Be(8, ts)) == ts
  {
    assert Pow256(2) == 0x1_0000;
    assert Pow256(4) == 256 * (256 * Pow256(2)) == 0x1_0000_0000;
    assert Pow256(6) == 256 * (256 * Pow256(4));
    assert Pow256(8) == 256 * (256 * Pow256(6)) == 0x1_0000_0000_0000_0000;
    BeRoundTrip(4, frame);
    BeRoundTrip(2, a);
    BeRoundTrip(8, ts);
  }

  /** A captured picture; the field widths are those of the source's integer types. */
  datatype Shot = Shot(w: nat, h: nat, ts: nat, jpeg: Bytes)

  predicate ShotValid(s: Shot) {
    s.w < 0x1_0000 && s.h < 0x1_0000 && s.ts < 0x1_0000_0000_0000_0000
  }

  function Packet(s: Shot): Bytes {
    PACKET_MAGIC + Be(2, s.w) + Be(2, s.h) + Be(8, s.ts) + s.jpeg
  }

  function Min(a: nat, b: nat): nat {
    if a < b then a else b
  }

  /** How many slices `chunks(48000)` yields. */
  function SliceCount(len: nat): nat {
    (len + CHUNK_PAYLOAD - 1) / CHUNK_PAYLOAD
  }

  function Slice(jpeg: Bytes, i: nat): Bytes
    requires i < SliceCount(|jpeg|)
  {
    jpeg[i * CHUNK_PAYLOAD..Min((i + 1) * CHUNK_PAYLOAD, |jpeg|)]
  }

  /** The count as the header carries it: at least one, cut to sixteen bits. */
  function Total(len: nat): nat {
    (if SliceCount(len) == 0 then 1 else SliceCount(len)) % 0x1_0000
  }

  function Chunk(frame: nat, s: Shot, i: nat): (d: Bytes)
    requires i < SliceCount(|s.jpeg|)
    ensures |d| == 24 + |Slice(s.jpeg, i)|
  {
    CHUNK_MAGIC + Be(4, frame) + Be(2, i % 0x1_0000) + Be(2, Total(|s.jpeg|)) +
    Be(2, s.w) + Be(2, s.h) + Be(8, s.ts) + Slice(s.jpeg, i)
  }

  /** `make_screen_chunks`. */
  method MakeScreenChunks(frame: nat, s: Shot) returns (chunks: seq<Bytes>)
    ensures |chunks| == SliceCount(|s.jpeg|)
    ensures forall i | 0 <= i < |chunks| :: chunks[i] == Chunk(frame, s, i)
  {
    var total := Total(|s.jpeg|);
    chunks := [];
    var at := 0;
    while at < |s.jpeg|
      invariant at == Min(|chunks| * CHUNK_PAYLOAD, |s.jpeg|)
      invariant |chunks| <= SliceCount(|s.jpeg|) && (at == |s.jpeg| ==> |chunks| == SliceCount(|s.jpeg|))
      invariant forall i | 0 <= i < |chunks| :: chunks[i] == Chunk(frame, s, i)
    {
      var idx := |chunks|;
      var end := Min(at + CHUNK_PAYLOAD, |s.jpeg|);
      var packet := CHUNK_MAGIC + Be(4, frame) + Be(2, idx % 0x1_0000) + Be(2, total);
      packet := packet + Be(2, s.w) + Be(2, s.h) + Be(8, s.ts);
      packet := packet + s.jpeg[at..end];
      chunks := chunks + [packet];
      at := end;
    }
  }

  /** What the stream sends for one picture. */
  function Datagrams(frame: nat, s: Shot): (ds: seq<Bytes>) {
    if |s.jpeg| + 16 <= DATAGRAM_MAX then [Packet(s)]
    else seq(SliceCount(|s.jpeg|), i requires 0 <= i < SliceCount(|s.jpeg|) => Chunk(frame, s, i))
  }

  /** No datagram exceeds the channel's limit, whatever the picture. */
  lemma DatagramsFit(frame: nat, s: Shot, d: Bytes)
    requires d in Datagrams(frame, s)
    ensures |d| <= DATAGRAM_MAX
  {
  }

  // ------------------------------------------------------------- the receiving side

  datatype Piece = Piece(frame: nat, idx: nat, total: nat, w: nat, h: nat, ts: nat, payload: Bytes)

  function ReadChunk(d: Bytes): Option<Piece> {
    if |d| < 24 || d[..4] != CHUNK_MAGIC then None
    else Some(Piece(FromBe(d[4..8]), FromBe(d[8..10]), FromBe(d[10..12]),
                    FromBe(d[12..14]), FromBe(d[14..16]), FromBe(d[16..24]), d[24..]))
  }

  lemma ReadChunkInverts(frame: nat, s: Shot, i: nat)
    requires frame < 0x1_0000_0000 && ShotValid(s) && i < SliceCount(|s.jpeg|)
    ensures ReadChunk(Chunk(frame, s, i)) ==
            Some(Piece(frame, i % 0x1_0000, Total(|s.jpeg|), s.w, s.h, s.ts, Slice(s.jpeg, i)))
  {
    var d := Chunk(frame, s, i);
    FieldRoundTrips(frame, i % 0x1_0000, s.ts);
    FieldRoundTrips(frame, Total(|s.jpeg|), s.ts);
    FieldRoundTrips(frame, s.w, s.ts);
    FieldRoundTrips(frame, s.h, s.ts);
    Layout(CHUNK_MAGIC, Be(4, frame), Be(2, i % 0x1_0000), Be(2, Total(|s.jpeg|)), Be(2, s.w), Be(2, s.h), Be(8, s.ts), Slice(s.jpeg, i));
  }

  function ReadPacket(d: Bytes): Option<Shot> {
    if |d| < 16 || d[..4] != PACKET_MAGIC then None
    else Some(Shot(FromBe(d[4..6]), FromBe(d[6..8]), FromBe(d[8..16]), d[16..]))
  }

  /** A single packet gives back its picture and is never taken for a chunk, nor a chunk
      for a packet. */
  lemma PacketInverts(s: Shot, frame: nat, t: Shot, i: nat)
    requires ShotValid(s) && i < SliceCount(|t.jpeg|)
    ensures ReadPacket(Packet(s)) == Some(s) && ReadChunk(Packet(s)) == None
    ensures ReadPacket(Chunk(frame, t, i)) == None
  {
    var d := Packet(s);
    FieldRoundTrips(0, s.w, s.ts);
    FieldRoundTrips(0, s.h, s.ts);
    assert d[..4] == PACKET_MAGIC && d[4..6] == Be(2, s.w) && d[6..8] == Be(2, s.h) && d[8..16] == Be(8, s.ts) && d[16..] == s.jpeg;
    assert d[3] == PACKET_MAGIC[3];
    assert Chunk(frame, t, i)[3] == CHUNK_MAGIC[3];
  }

  lemma Layout(m: Bytes, f: Bytes, i: Bytes, t: Bytes, w: Bytes, h: Bytes, ts: Bytes, p: Bytes)
    requires |m| == 4 && |f| == 4 && |i| == 2 && |t| == 2 && |w| == 2 && |h| == 2 && |ts| == 8
    ensures var d := m + f + i + t + w + h + ts + p;
            d[..4] == m && d[4..8] == f && d[8..10] == i && d[10..12] == t && d[12..14] == w && d[14..16] == h &&
            d[16..24] == ts && d[24..] == p
  {
  }

  /** The first payload among the pieces of one frame that carries index `i`. */
  function PayloadAt(ds: seq<Bytes>, frame: nat, i: nat): Option<Bytes> {
    if ds == [] then None
    else
      var p := ReadChunk(ds[0]);
      if p.Some? && p.value.frame == frame && p.value.idx == i then Some(p.value.payload) else PayloadAt(ds[1..], frame, i)
  }

  /** Payloads 0 to n-1 in index order, if all of them arrived. */
  function Assembled(ds: seq<Bytes>, frame: nat, n: nat): Option<Bytes> {
    if n == 0 then Some([])
    else
      var front, last := Assembled(ds, frame, n - 1), PayloadAt(ds, frame, n - 1);
      if front.None? || last.None? then None else Some(front.value + last.value)
  }

  /** A viewer that only looks at what arrived: the first piece names the frame, its size
      and its count, the payloads make up the picture. */
  function Reassemble(ds: seq<Bytes>): Option<(nat, Shot)> {
    if ds == [] then None
    else
      match ReadChunk(ds[0])
      case None => None
      case Some(p) =>
        match Assembled(ds, p.frame, p.total)
        case None => None
        case Some(jpeg) => Some((p.frame, Shot(p.w, p.h, p.ts, jpeg)))
  }

  ghost predicate ArrivedFrom(ds: seq<Bytes>, frame: nat, s: Shot) {
    forall d | d in ds :: exists i | 0 <= i < SliceCount(|s.jpeg|) :: d == Chunk(frame, s, i)
  }

  /** The header counts chunks truly exactly up to 65535 of them; the index then is true as
      well. Beyond that the count wraps. */
  lemma HeaderIsTrue(len: nat)
    requires len > 0
    ensures Total(len) == SliceCount(len) <==> len <= CHUNK_LIMIT * CHUNK_PAYLOAD
    ensures len <= CHUNK_LIMIT * CHUNK_PAYLOAD ==> forall i | 0 <= i < SliceCount(len) :: i % 0x1_0000 == i
  {
    var n := SliceCount(len);
    if len <= CHUNK_LIMIT * CHUNK_PAYLOAD {
      assert n <= CHUNK_LIMIT;
    } else {
      assert n > CHUNK_LIMIT;
    }
  }

  /** Every piece belongs to the frame, and those numbered `i` carry `payload`. */
  ghost predicate Agree(ds: seq<Bytes>, frame: nat, i: nat, payload: Bytes) {
    forall d | d in ds ::
      ReadChunk(d).Some? && ReadChunk(d).value.frame == frame && (ReadChunk(d).value.idx == i ==> ReadChunk(d).value.payload == payload)
  }

  lemma {:induction false} FindPayload(ds: seq<Bytes>, frame: nat, i: nat, payload: Bytes)
    requires Agree(ds, frame, i, payload)
    ensures PayloadAt(ds, frame, i) == if exists d | d in ds :: ReadChunk(d).value.idx == i then Some(payload) else None
  {
    if ds != [] {
      assert ds[0] in ds;
      assert forall d | d in ds[1..] :: d in ds;
      FindPayload(ds[1..], frame, i, payload);
      if ReadChunk(ds[0]).value.idx != i {
        assert forall d | d in ds :: d == ds[0] || d in ds[1..];
      }
    }
  }

  /** The piece an arrived datagram is, with a true index. */
  lemma ArrivedPiece(ds: seq<Bytes>, frame: nat, s: Shot, d: Bytes) returns (k: nat)
    requires frame < 0x1_0000_0000 && ShotValid(s) && 0 < |s.jpeg| <= CHUNK_LIMIT * CHUNK_PAYLOAD
    requires ArrivedFrom(ds, frame, s) && d in ds
    ensures k < SliceCount(|s.jpeg|) && d == Chunk(frame, s, k)
    ensures ReadChunk(d) == Some(Piece(frame, k, SliceCount(|s.jpeg|), s.w, s.h, s.ts, Slice(s.jpeg, k)))
  {
    k :| 0 <= k < SliceCount(|s.jpeg|) && d == Chunk(frame, s, k);
    HeaderIsTrue(|s.jpeg|);
    ReadChunkInverts(frame, s, k);
  }

  lemma PayloadFound(ds: seq<Bytes>, frame: nat, s: Shot, i: nat)
    requires frame < 0x1_0000_0000 && ShotValid(s) && 0 < |s.jpeg| <= CHUNK_LIMIT * CHUNK_PAYLOAD
    requires ArrivedFrom(ds, frame, s) && i < SliceCount(|s.jpeg|)
    ensures PayloadAt(ds, frame, i) == if Chunk(frame, s, i) in ds then Some(Slice(s.jpeg, i)) else None
  {
    forall d | d in ds
      ensures ReadChunk(d).Some? && ReadChunk(d).value.frame == frame
      ensures ReadChunk(d).value.idx == i ==> ReadChunk(d).value.payload == Slice(s.jpeg, i) && d == Chunk(frame, s, i)
    {
      var k := ArrivedPiece(ds, frame, s, d);
    }
    FindPayload(ds, frame, i, Slice(s.jpeg, i));
    if Chunk(frame, s, i) in ds {
      HeaderIsTrue(|s.jpeg|);
      ReadChunkInverts(frame, s, i);
    }
  }

  lemma JoinSlices(jpeg: Bytes, n: nat)
    requires 0 < n <= SliceCount(|jpeg|)
    ensures jpeg[..Min((n - 1) * CHUNK_PAYLOAD, |jpeg|)] + Slice(jpeg, n - 1) == jpeg[..Min(n * CHUNK_PAYLOAD, |jpeg|)]
  {
  }

  lemma {:induction false} AssembleUpTo(ds: seq<Bytes>, frame: nat, jpeg: Bytes, n: nat)
    requires n <= SliceCount(|jpeg|)
    requires forall i | 0 <= i < n :: PayloadAt(ds, frame, i) == Some(Slice(jpeg, i))
    ensures Assembled(ds, frame, n) == Some(jpeg[..Min(n * CHUNK_PAYLOAD, |jpeg|)])
  {
    if n > 0 {
      AssembleUpTo(ds, frame, jpeg, n - 1);
      JoinSlices(jpeg, n);
    }
  }

  /** Any arrival order and any duplication of one frame's chunks gives back the frame
      number, the size, the time and the exact picture; with a chunk missing, nothing is
      taken for a whole picture. */
  lemma ReassemblyIsExact(ds: seq<Bytes>, frame: nat, s: Shot)
    requires frame < 0x1_0000_0000 && ShotValid(s) && 0 < |s.jpeg| <= CHUNK_LIMIT * CHUNK_PAYLOAD
    requires ArrivedFrom(ds, frame, s)
    ensures Reassemble(ds) ==
            if forall i | 0 <= i < SliceCount(|s.jpeg|) :: Chunk(frame, s, i) in ds then Some((frame, s)) else None
  {
    var n := SliceCount(|s.jpeg|);
    forall i | 0 <= i < n
      ensures PayloadAt(ds, frame, i) == if Chunk(frame, s, i) in ds then Some(Slice(s.jpeg, i)) else None
    {
      PayloadFound(ds, frame, s, i);
    }
    if ds == [] {
      assert Chunk(frame, s, 0) !in ds;
    } else {
      var k := ArrivedPiece(ds, frame, s, ds[0]);
      if forall i | 0 <= i < n :: Chunk(frame, s, i) in ds {
        AssembleUpTo(ds, frame, s.jpeg, n);
        assert s.jpeg[..Min(n * CHUNK_PAYLOAD, |s.jpeg|)] == s.jpeg;
      } else {
        var gone :| 0 <= gone < n && Chunk(frame, s, gone) !in ds;
        NotAssembled(ds, frame, gone, n);
      }
    }
  }

  lemma {:induction false} NotAssembled(ds: seq<Bytes>, frame: nat, gone: nat, n: nat)
    requires PayloadAt(ds, frame, gone) == None && gone < n
    ensures Assembled(ds, frame, n) == None
  {
    if gone < n - 1 {
      NotAssembled(ds, frame, gone, n - 1);
    }
  }
}
