/**
 The header that the integrity layer puts in front of a block: format (2 bytes),
 block id (16), client id (4), version (8).  The old layout has no block id.
 */
module BlockHeader {
  import opened Bytes

  const FORMAT_OLD := 0
  const FORMAT := 1
  const OLD_HEADER_LENGTH := 14
  const HEADER_LENGTH := 30

  function Prepend(id: BlockId, client: U32, version: U64, data: seq<byte>): seq<byte> {
    Encode(FORMAT, 2) + id + Encode(client, 4) + Encode(version, 8) + data
  }

  function ReadFormat(block: seq<byte>): U16
    requires |block| >= 2
  {
    FieldRange(block[0..2]); Decode(block[0..2])
  }

  function ReadBlockId(block: seq<byte>): BlockId
    requires |block| >= HEADER_LENGTH
  {
    block[2..18]
  }

  function ReadClient(block: seq<byte>): U32
    requires |block| >= HEADER_LENGTH
  {
    FieldRange(block[18..22]); Decode(block[18..22])
  }

  function ReadVersion(block: seq<byte>): U64
    requires |block| >= HEADER_LENGTH
  {
    FieldRange(block[22..30]); Decode(block[22..30])
  }

  function Remove(block: seq<byte>): seq<byte>
    requires |block| >= HEADER_LENGTH
  {
    block[HEADER_LENGTH..]
  }

  /** Turns a block in the old layout into one in the current layout. */
  function Migrate(id: BlockId, block: seq<byte>): seq<byte>
    requires |block| >= 2
  {
    Encode(FORMAT, 2) + id + block[2..]
  }

  /** A block as the previous format version wrote it. */
  function OldBlock(client: U32, version: U64, data: seq<byte>): seq<byte> {
    Encode(FORMAT_OLD, 2) + Encode(client, 4) + Encode(version, 8) + data
  }

  /** The readers invert the writer, field by field. */
  lemma {:induction false} HeaderRoundTrip(id: BlockId, client: U32, version: U64, data: seq<byte>)
    ensures var b := Prepend(id, client, version, data);
      && |b| == HEADER_LENGTH + |data|
      && ReadFormat(b) == FORMAT && ReadBlockId(b) == id && ReadClient(b) == client && ReadVersion(b) == version
      && Remove(b) == data
  {
    var b := Prepend(id, client, version, data);
    Widths();
    assert b[0..2] == Encode(FORMAT, 2);
    assert b[2..18] == id;
    assert b[18..22] == Encode(client, 4);
    assert b[22..30] == Encode(version, 8);
    DecodeEncode(FORMAT, 2);
    DecodeEncode(client, 4);
    DecodeEncode(version, 8);
  }

  /** The writer inverts the readers: a block of the current format is determined by its four fields. */
  lemma {:induction false} HeaderDetermined(block: seq<byte>)
    requires |block| >= HEADER_LENGTH && ReadFormat(block) == FORMAT
    ensures Prepend(ReadBlockId(block), ReadClient(block), ReadVersion(block), Remove(block)) == block
  {
    EncodeDecode(block[0..2]);
    EncodeDecode(block[18..22]);
    EncodeDecode(block[22..30]);
    assert block == block[0..2] + block[2..18] + block[18..22] + block[22..30] + block[30..];
  }

  /** Migration keeps client, version and payload, sets the format and inserts the id. */
  lemma {:induction false} MigrateRoundTrip(id: BlockId, block: seq<byte>)
    requires |block| >= OLD_HEADER_LENGTH
    ensures var m := Migrate(id, block);
      && |m| == |block| + 16 && ReadFormat(m) == FORMAT && ReadBlockId(m) == id
      && ReadClient(m) == Decode(block[2..6]) && ReadVersion(m) == Decode(block[6..14]) && Remove(m) == block[14..]
  {
    var m := Migrate(id, block);
    Widths();
    DecodeEncode(FORMAT, 2);
    assert m[0..2] == Encode(FORMAT, 2);
    assert m[2..18] == id;
    assert m[18..22] == block[2..6];
    assert m[22..30] == block[6..14];
    assert m[30..] == block[14..];
  }

  /** Migrating what the old version wrote gives exactly what the current version writes. */
  lemma {:induction false} MigrateOldBlock(id: BlockId, client: U32, version: U64, data: seq<byte>)
    ensures var o := OldBlock(client, version, data);
      ReadFormat(o) == FORMAT_OLD && |o| == OLD_HEADER_LENGTH + |data| && Migrate(id, o) == Prepend(id, client, version, data)
  {
    var o := OldBlock(client, version, data);
    Widths();
    DecodeEncode(FORMAT_OLD, 2);
    assert o[0..2] == Encode(FORMAT_OLD, 2);
    assert o[2..] == Encode(client, 4) + Encode(version, 8) + data;
  }
}
