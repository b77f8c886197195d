/** The layout of a spilled chunk on local disk: a fixed header of 64 bytes, the schema, the payload. */
module SpillHeader {
  import opened Common
  import opened CatalogModel

  type Byte = x: int | 0 <= x < 256

  const SPILL_MAGIC: seq<Byte> := [0x59, 0x53, 0x50, 0x4C]
  const SPILL_VERSION: nat := 1
  const HEADER_LEN: nat := 64

  const U32: nat := 0x1_0000_0000
  const U64: nat := 0x1_0000_0000_0000_0000

  datatype Header = Header(version: nat, walSegment: nat, seqStart: nat, seqEnd: nat, rows: nat, memBytes: nat,
      crc: nat)

  /** Byte `i` of `n`, counted from the least significant one. */
  function ByteAt(n: nat, i: nat): Byte {
    if i == 0 then n % 256 else ByteAt(n / 256, i - 1)
  }

  /** The lowest `width` bytes of `n`, least significant first. */
  function Le(n: nat, width: nat): (bytes: seq<Byte>)
    ensures |bytes| == width
  {
    seq(width, i requires 0 <= i < width => ByteAt(n, i))
  }

  function FromLe(bytes: seq<Byte>): nat {
    if bytes == [] then 0 else bytes[0] + 256 * FromLe(bytes[1..])
  }

  // ---------------------------------------------------------------- writing

  /** The first half of the header says which part of the log is covered. */
  function Coverage(h: Header): (bytes: seq<Byte>)
    ensures |bytes| == 32
  {
    SPILL_MAGIC + Le(h.version, 4) + Le(h.walSegment, 8) + Le(h.seqStart, 8) + Le(h.seqEnd, 8)
  }

  function Fixed(h: Header, schemaLen: nat, payloadLen: nat): (bytes: seq<Byte>)
    ensures |bytes| == HEADER_LEN
  {
    Coverage(h) + Le(h.rows, 8) + Le(h.memBytes, 8) + Le(h.crc, 4) + Le(schemaLen, 4) + Le(payloadLen, 8)
  }

  function Layout(h: Header, schema: seq<Byte>, payload: seq<Byte>): seq<Byte> {
    Fixed(h, |schema|, |payload|) + schema + payload
  }

  /** The buffer grows field by field; the length of the schema is cut to 32 bits. */
  method WriteSpill(walSegment: nat, seqStart: nat, seqEnd: nat, rows: nat, memBytes: nat, crc: nat,
                    schema: seq<Byte>, payload: seq<Byte>) returns (buf: seq<Byte>)
    ensures buf == Layout(Header(SPILL_VERSION, walSegment, seqStart, seqEnd, rows, memBytes, crc), schema, payload)
  {
    buf := SPILL_MAGIC;
    buf := buf + Le(SPILL_VERSION, 4);
    buf := buf + Le(walSegment, 8);
    buf := buf + Le(seqStart, 8);
    buf := buf + Le(seqEnd, 8);
    buf := buf + Le(rows, 8);
    buf := buf + Le(memBytes, 8);
    buf := buf + Le(crc, 4);
    buf := buf + Le(|schema|, 4);
    buf := buf + Le(|payload|, 8);
    buf := buf + schema;
    buf := buf + payload;
  }

  // ---------------------------------------------------------------- reading

  function ReadAt(raw: seq<Byte>, at: nat, width: nat): nat
    requires at + width <= |raw|
  {
    FromLe(raw[at..at + width])
  }

  function HeaderAt(raw: seq<Byte>): Header
    requires |raw| >= HEADER_LEN
  {
    Header(ReadAt(raw, 4, 4), ReadAt(raw, 8, 8), ReadAt(raw, 16, 8), ReadAt(raw, 24, 8), ReadAt(raw, 32, 8),
           ReadAt(raw, 40, 8), ReadAt(raw, 48, 4))
  }

  function ParseHeader(raw: seq<Byte>): Result<(Header, seq<Byte>, seq<Byte>)> {
    if |raw| < HEADER_LEN || raw[0..4] != SPILL_MAGIC then Err(InvalidState)
    else if HeaderAt(raw).version != SPILL_VERSION then Err(UnsupportedVersion)
    else
      var payloadStart := HEADER_LEN + ReadAt(raw, 52, 4);
      var payloadEnd := payloadStart + ReadAt(raw, 56, 8);
      if payloadEnd > |raw| then Err(InvalidState)
      else Ok((HeaderAt(raw), raw[HEADER_LEN..payloadStart], raw[payloadStart..payloadEnd]))
  }

  // ---------------------------------------------------------------- they undo each other

  function Power(width: nat): nat {
    if width == 0 then 1 else 256 * Power(width - 1)
  }

  lemma {:induction false} LeReads(n: nat, width: nat)
    ensures Power(width) > 0 && FromLe(Le(n, width)) == n % Power(width)
  {
    if width > 0 {
      LeReads(n / 256, width - 1);
      ModSplit(n, Power(width - 1));
      assert Le(n, width)[1..] == Le(n / 256, width - 1);
    }
  }

  lemma ModSplit(n: nat, m: nat)
    requires m > 0
    ensures n % (256 * m) == n % 256 + 256 * (n / 256 % m)
  {
    var q, r := n / 256 / m, n / 256 % m;
    assert n / 256 == m * q + r;
    assert n == 256 * (m * q + r) + n % 256;
    Remainder(n, 256 * m, q, n % 256 + 256 * r);
  }

  lemma LeReadsInRange(n: nat)
    ensures FromLe(Le(n, 4)) == n % U32
    ensures FromLe(Le(n, 8)) == n % U64
  {
    LeReads(n, 4);
    LeReads(n, 8);
    assert Power(4) == 256 * (256 * (256 * (256 * Power(0))));
    assert Power(8) == 256 * (256 * (256 * (256 * Power(4))));
  }

  predicate InRange(h: Header) {
    h.version < U32 && h.walSegment < U64 && h.seqStart < U64 && h.seqEnd < U64 && h.rows < U64 && h.memBytes < U64
        && h.crc < U32
  }

  lemma Peel(before: seq<Byte>, field: seq<Byte>, raw: seq<Byte>)
    requires before + field <= raw
    ensures before <= raw && |before| + |field| <= |raw| && raw[|before|..|before| + |field|] == field
  {
    assert raw[..|before| + |field|] == before + field;
    assert raw[..|before|] == (before + field)[..|before|] == before;
  }

  lemma FourFields(front: seq<Byte>, a: seq<Byte>, b: seq<Byte>, c: seq<Byte>, d: seq<Byte>, raw: seq<Byte>)
    requires front + a + b + c + d <= raw
    ensures var i := |front|;
            var j := i + |a|;
            var k := j + |b|;
            var l := k + |c|;
            && l + |d| <= |raw| && front <= raw
            && raw[i..j] == a && raw[j..k] == b && raw[k..l] == c && raw[l..l + |d|] == d
  {
    Peel(front + a + b + c, d, raw);
    Peel(front + a + b, c, raw);
    Peel(front + a, b, raw);
    Peel(front, a, raw);
  }

  lemma CoverageReads(h: Header, raw: seq<Byte>)
    requires Coverage(h) <= raw && InRange(h)
    ensures raw[0..4] == SPILL_MAGIC && ReadAt(raw, 4, 4) == h.version && ReadAt(raw, 8, 8) == h.walSegment
    ensures ReadAt(raw, 16, 8) == h.seqStart && ReadAt(raw, 24, 8) == h.seqEnd
  {
    FourFields(SPILL_MAGIC, Le(h.version, 4), Le(h.walSegment, 8), Le(h.seqStart, 8), Le(h.seqEnd, 8), raw);
    FieldsRead(h);
  }

  lemma FieldsRead(h: Header)
    requires InRange(h)
    ensures FromLe(Le(h.version, 4)) == h.version && FromLe(Le(h.walSegment, 8)) == h.walSegment
    ensures FromLe(Le(h.seqStart, 8)) == h.seqStart && FromLe(Le(h.seqEnd, 8)) == h.seqEnd
  {
    LeReadsInRange(h.version);
    LeReadsInRange(h.walSegment);
    LeReadsInRange(h.seqStart);
    LeReadsInRange(h.seqEnd);
  }

  lemma LengthsRead(front: seq<Byte>, h: Header, schemaLen: nat, payloadLen: nat, raw: seq<Byte>)
    requires |front| == 32 && InRange(h)
    requires front + Le(h.rows, 8) + Le(h.memBytes, 8) + Le(h.crc, 4) + Le(schemaLen, 4) + Le(payloadLen, 8) <= raw
    ensures front <= raw
    ensures ReadAt(raw, 32, 8) == h.rows && ReadAt(raw, 40, 8) == h.memBytes && ReadAt(raw, 48, 4) == h.crc
    ensures ReadAt(raw, 52, 4) == schemaLen % U32 && ReadAt(raw, 56, 8) == payloadLen % U64
  {
    Peel(front + Le(h.rows, 8) + Le(h.memBytes, 8) + Le(h.crc, 4) + Le(schemaLen, 4), Le(payloadLen, 8), raw);
    FourFields(front, Le(h.rows, 8), Le(h.memBytes, 8), Le(h.crc, 4), Le(schemaLen, 4), raw);
    LeReadsInRange(h.rows);
    LeReadsInRange(h.memBytes);
    LeReadsInRange(h.crc);
    LeReadsInRange(schemaLen);
    LeReadsInRange(payloadLen);
  }

  /** Each field is found where it was put. */
  lemma FixedReads(h: Header, schemaLen: nat, payloadLen: nat, raw: seq<Byte>)
    requires InRange(h) && Fixed(h, schemaLen, payloadLen) <= raw
    ensures raw[0..4] == SPILL_MAGIC && HeaderAt(raw) == h
    ensures ReadAt(raw, 52, 4) == schemaLen % U32 && ReadAt(raw, 56, 8) == payloadLen % U64
  {
    LengthsRead(Coverage(h), h, schemaLen, payloadLen, raw);
    CoverageReads(h, raw);
  }

  lemma BodyReads(fixed: seq<Byte>, schema: seq<Byte>, payload: seq<Byte>, more: seq<Byte>)
    requires |fixed| == HEADER_LEN
    ensures var raw := fixed + schema + payload + more;
            && fixed <= raw && |raw| == HEADER_LEN + |schema| + |payload| + |more|
            && raw[HEADER_LEN..HEADER_LEN + |schema|] == schema
            && raw[HEADER_LEN + |schema|..HEADER_LEN + |schema| + |payload|] == payload
  {
    assert fixed + schema + payload + more == fixed + (schema + payload + more);
  }

  /** What was written is read back, whatever follows it in the file, exactly when the length of the schema
      fits the 32 bits it is given. */
  lemma RoundTripIff(h: Header, schema: seq<Byte>, payload: seq<Byte>, more: seq<Byte>)
    requires InRange(h) && h.version == SPILL_VERSION && |payload| < U64
    ensures ParseHeader(Layout(h, schema, payload) + more) == Ok((h, schema, payload)) <==> |schema| < U32
  {
    var raw := Layout(h, schema, payload) + more;
    BodyReads(Fixed(h, |schema|, |payload|), schema, payload, more);
    FixedReads(h, |schema|, |payload|, raw);
  }

  /** A file that was cut anywhere is refused. */
  lemma PrefixesRejected(h: Header, schema: seq<Byte>, payload: seq<Byte>, n: nat)
    requires InRange(h) && |schema| < U32 && |payload| < U64 && n < |Layout(h, schema, payload)|
    ensures ParseHeader(Layout(h, schema, payload)[..n]).Err?
  {
    var raw := Layout(h, schema, payload)[..n];
    if n >= HEADER_LEN {
      var fixed := Fixed(h, |schema|, |payload|);
      assert raw[..HEADER_LEN] == fixed;
      FixedReads(h, |schema|, |payload|, raw);
    }
  }
}
