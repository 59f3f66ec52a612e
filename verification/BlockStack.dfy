/**
 The layers under the cache: integrity over encryption over files.  The cipher
 is abstract: a pair of functions that invert each other with a fixed overhead.
 */
module BlockStack {
  import opened Bytes
  import opened KnownVersions
  import opened BlockHeader
  import opened IntegrityStore

  // ---------- encryption ----------

  /** `enc` takes the random initialization vector as its first argument. */
  datatype Cipher = Cipher(enc: (nat, seq<byte>) -> seq<byte>, dec: seq<byte> -> Option<seq<byte>>, overhead: U32)

  const POW32 := 0x1_0000_0000

  /** What is left of a size when it is converted to 32 bits. */
  function Low32(n: nat): (r: U32)
    ensures n < POW32 ==> r == n
    ensures n >= POW32 ==> r <= n - POW32
  {
    if n < POW32 then n else Low32(n - POW32)
  }

  lemma {:induction false} Low32IsModulo(n: nat)
    ensures Low32(n) == n % POW32
  {
    if n >= POW32 {
      Low32IsModulo(n - POW32);
    }
  }

  /** The cipher takes and computes sizes in 32-bit unsigned arithmetic. */
  function CiphertextSize(plaintext: nat, overhead: U32): U32 {
    Low32(Low32(plaintext) + overhead)
  }

  function PlaintextSize(ciphertext: nat, overhead: U32): U32 {
    Low32(Low32(ciphertext) + POW32 - overhead)
  }

  /** The ciphertext of a plaintext of this size has a 32-bit size. */
  predicate Fits(c: Cipher, size: nat) {
    size + c.overhead < POW32
  }

  /**
   The buffers have the sizes the source computes, a ciphertext that is too
   short is refused, and decryption inverts encryption where the sizes fit.
   */
  ghost predicate Sound(c: Cipher) {
    && (forall iv: nat, x: seq<byte> {:trigger c.enc(iv, x)} ::
          |c.enc(iv, x)| == CiphertextSize(|x|, c.overhead) && (Fits(c, |x|) ==> c.dec(c.enc(iv, x)) == Some(x)))
    && (forall y: seq<byte> {:trigger c.dec(y)} ::
          c.dec(y).Some? ==> Low32(|y|) >= c.overhead && |c.dec(y).value| == PlaintextSize(|y|, c.overhead))
  }

  function Encrypt(c: Cipher, iv: nat, data: seq<byte>): seq<byte> {
    Encode(FORMAT, 2) + c.enc(iv, data)
  }

  /** What the previous version wrote: the block id is inside the ciphertext. */
  function OldEncrypt(c: Cipher, iv: nat, id: BlockId, data: seq<byte>): seq<byte> {
    Encode(FORMAT_OLD, 2) + c.enc(iv, id + data)
  }

  datatype Decrypted = Plain(data: seq<byte>) | Rejected | UnknownFormat

  /** The id prefix of the old format is read without a length check. */
  predicate Decryptable(c: Cipher, block: seq<byte>) {
    |block| >= 2 && (ReadFormat(block) == FORMAT_OLD && c.dec(block[2..]).Some? ==> |c.dec(block[2..]).value| >= 16)
  }

  function TryDecrypt(c: Cipher, id: BlockId, block: seq<byte>): Decrypted
    requires Decryptable(c, block)
  {
    if ReadFormat(block) != FORMAT && ReadFormat(block) != FORMAT_OLD then UnknownFormat
    else
      var plain := c.dec(block[2..]);
      if plain.None? then Rejected
      else if ReadFormat(block) == FORMAT_OLD then
        if plain.value[..16] != id then Rejected else Plain(plain.value[16..])
      else Plain(plain.value)
  }

  lemma {:induction false} FormatRead(format: U16, rest: seq<byte>)
    ensures ReadFormat(Encode(format, 2) + rest) == format && (Encode(format, 2) + rest)[2..] == rest
  {
    Widths();
    DecodeEncode(format, 2);
    assert (Encode(format, 2) + rest)[0..2] == Encode(format, 2);
  }

  /** Encrypting and decrypting gives the data back exactly if the ciphertext size fits 32 bits. */
  lemma {:induction false} EncryptRoundTrip(c: Cipher, iv: nat, id: BlockId, data: seq<byte>)
    requires Sound(c)
    ensures Decryptable(c, Encrypt(c, iv, data)) && (TryDecrypt(c, id, Encrypt(c, iv, data)) == Plain(data) <==> Fits(c, |data|))
    ensures |Encrypt(c, iv, data)| == 2 + c.overhead + |data| <==> Fits(c, |data|)
  {
    FormatRead(FORMAT, c.enc(iv, data));
  }

  /** In the old format the id prefix is checked and stripped, and only there. */
  lemma {:induction false} OldEncryptReads(c: Cipher, iv: nat, id: BlockId, asked: BlockId, data: seq<byte>)
    requires Sound(c)
    ensures Fits(c, 16 + |data|) ==>
      && Decryptable(c, OldEncrypt(c, iv, id, data))
      && TryDecrypt(c, asked, OldEncrypt(c, iv, id, data)) == if asked == id then Plain(data) else Rejected
    ensures !Fits(c, 16 + |data|) && Decryptable(c, OldEncrypt(c, iv, id, data)) ==>
      TryDecrypt(c, asked, OldEncrypt(c, iv, id, data)) != Plain(data)
  {
    FormatRead(FORMAT_OLD, c.enc(iv, id + data));
    assert (id + data)[..16] == id && (id + data)[16..] == data;
  }

  // ---------- integrity over encryption ----------

  datatype StackResult = StackResult(known: Known, disk: Base, result: LoadResult)

  /** Both layers can read what is on disk. */
  predicate StackReadable(c: Cipher, disk: Base, b: BlockId) {
    b in disk ==>
      && Decryptable(c, disk[b])
      && (TryDecrypt(c, b, disk[b]).Plain? ==> Readable(TryDecrypt(c, b, disk[b]).data))
  }

  /** A block that cannot be decrypted is a missing block to the integrity layer. */
  function StackLoad(c: Cipher, cfg: Config, k: Known, disk: Base, b: BlockId, iv: nat): StackResult
    requires StackReadable(c, disk, b)
  {
    if b in disk && TryDecrypt(c, b, disk[b]).UnknownFormat? then StackResult(k, disk, FormatException)
    else
      var answer := if b in disk && TryDecrypt(c, b, disk[b]).Plain? then Some(TryDecrypt(c, b, disk[b]).data) else None;
      var o := LoadAnswer(cfg, k, b, answer);
      StackResult(o.known, if o.rewrite.Some? then disk[b := Encrypt(c, iv, o.rewrite.value)] else disk, o.result)
  }

  /**
   How a load through both layers starts: an unknown encryption format throws, a
   block that is not there, that the cipher rejects or that is an old block of
   another id is missing to the integrity layer, and anything else is handed on
   decrypted.
   */
  lemma {:induction false} StackLoadIs(c: Cipher, cfg: Config, k: Known, disk: Base, b: BlockId, iv: nat)
    requires StackReadable(c, disk, b)
    ensures var r := StackLoad(c, cfg, k, disk, b, iv);
      if b !in disk then r == MissingInStack(cfg, k, disk, b)
      else
        var f, plain := ReadFormat(disk[b]), c.dec(disk[b][2..]);
        if f != FORMAT && f != FORMAT_OLD then r == StackResult(k, disk, FormatException)
        else if plain.None? || (f == FORMAT_OLD && plain.value[..16] != b) then r == MissingInStack(cfg, k, disk, b)
        else r.result == LoadAnswer(cfg, k, b, Some(if f == FORMAT_OLD then plain.value[16..] else plain.value)).result
  {
  }

  /** A missing block: nothing is loaded or written, and a violation is recorded exactly if the block should exist and that is checked. */
  function MissingInStack(cfg: Config, k: Known, disk: Base, b: BlockId): StackResult {
    StackResult(
      k.(violation := k.violation || (!cfg.allowViolations && cfg.missingIsViolation && b in Existing(k))), disk, Nothing)
  }

  /** The block is in the current format at both layers, holds `data`, and is the update this client knows last. */
  ghost predicate UpToDate(c: Cipher, k: Known, disk: Base, b: BlockId, data: seq<byte>) {
    exists iv: nat, w, v :: WrittenBy(c, k, disk, b, data, iv, w, v)
  }

  predicate WrittenBy(c: Cipher, k: Known, disk: Base, b: BlockId, data: seq<byte>, iv: nat, w: U32, v: U64) {
    && b in disk && disk[b] == Encrypt(c, iv, Prepend(b, w, v, data)) && Fits(c, HEADER_LENGTH + |data|)
    && w != DELETED && v > 0 && VersionOf(k, w, b) == v && LastOf(k, b) == w
  }

  lemma {:induction false} UpToDateLoads(c: Cipher, cfg: Config, k: Known, disk: Base, b: BlockId, data: seq<byte>, iv: nat)
    requires Sound(c) && UpToDate(c, k, disk, b, data)
    ensures StackReadable(c, disk, b)
    ensures var r := StackLoad(c, cfg, k, disk, b, iv);
      r.result == Data(data) && r.disk == disk && UpToDate(c, r.known, disk, b, data)
  {
    var iv0: nat, w, v :| WrittenBy(c, k, disk, b, data, iv0, w, v);
    EncryptRoundTrip(c, iv0, b, Prepend(b, w, v, data));
    HeaderRoundTrip(b, w, v, data);
    AcceptedIff(k, w, b, v);
    CheckEffect(k, w, b, v, w, b);
    assert WrittenBy(c, Check(k, w, b, v).0, disk, b, data, iv0, w, v);
  }

  /** The state after `ivs` many loads of the same block. */
  function Reload(c: Cipher, cfg: Config, k: Known, disk: Base, b: BlockId, ivs: seq<nat>): StackResult
    requires StackReadable(c, disk, b)
    decreases |ivs|
  {
    if ivs == [] then StackResult(k, disk, Nothing)
    else
      var r := StackLoad(c, cfg, k, disk, b, ivs[0]);
      if |ivs| == 1 || !StackReadable(c, r.disk, b) then r else Reload(c, cfg, r.known, r.disk, b, ivs[1..])
  }

  lemma {:induction false} EveryLaterLoad(c: Cipher, cfg: Config, k: Known, disk: Base, b: BlockId, data: seq<byte>, ivs: seq<nat>)
    requires Sound(c) && UpToDate(c, k, disk, b, data) && ivs != []
    ensures StackReadable(c, disk, b) && Reload(c, cfg, k, disk, b, ivs).result == Data(data) && Reload(c, cfg, k, disk, b, ivs).disk == disk
    decreases |ivs|
  {
    UpToDateLoads(c, cfg, k, disk, b, data, ivs[0]);
    var r := StackLoad(c, cfg, k, disk, b, ivs[0]);
    if |ivs| > 1 {
      EveryLaterLoad(c, cfg, r.known, disk, b, data, ivs[1..]);
    }
  }

  /**
   Loading a block that is in the old format at both layers, with an acceptable
   version, returns its payload and leaves it in the current format at both
   layers as a new version of this client; every later load returns the same payload.
   */
  lemma {:induction false} OldBlockUpgrades(
    c: Cipher, cfg: Config, k: Known, disk: Base, b: BlockId, iv0: nat, w: U32, v: U64, data: seq<byte>, iv: nat, ivs: seq<nat>)
    requires Sound(c) && k.me != DELETED && ivs != [] && Fits(c, HEADER_LENGTH + |data|)
    requires b in disk && disk[b] == OldEncrypt(c, iv0, b, OldBlock(w, v, data))
    requires Check(k, w, b, v).1 == Accepted
    requires VersionOf(Check(k, w, b, v).0, k.me, b) + 1 < U64_MAX
    ensures StackReadable(c, disk, b)
    ensures var r := StackLoad(c, cfg, k, disk, b, iv);
      && r.result == Data(data)
      && r.disk == disk[b := Encrypt(c, iv, Prepend(b, k.me, VersionOf(Check(k, w, b, v).0, k.me, b) + 1, data))]
      && UpToDate(c, r.known, r.disk, b, data)
      && StackReadable(c, r.disk, b) && Reload(c, cfg, r.known, r.disk, b, ivs).result == Data(data)
  {
    var k1 := Check(k, w, b, v).0;
    OldEncryptReads(c, iv0, b, b, OldBlock(w, v, data));
    MigrateOldBlock(b, w, v, data);
    HeaderRoundTrip(b, w, v, data);
    CheckEffect(k, w, b, v, w, b);
    IncrementEffect(k1, b, k.me, b);
    var r := StackLoad(c, cfg, k, disk, b, iv);
    assert WrittenBy(c, r.known, r.disk, b, data, iv, k.me, VersionOf(k1, k.me, b) + 1);
    EveryLaterLoad(c, cfg, r.known, r.disk, b, data, ivs);
  }

  /** What a store through both layers leaves on disk. */
  function StackStored(c: Cipher, k: Known, disk: Base, b: BlockId, data: seq<byte>, iv: nat): Base
    requires VersionOf(k, k.me, b) + 1 < U64_MAX
  {
    disk[b := Encrypt(c, iv, Prepend(b, k.me, VersionOf(k, k.me, b) + 1, data))]
  }

  /** What is stored through both layers is what every later load returns, as long as the ciphertext size fits. */
  lemma {:induction false} StoredLoads(c: Cipher, cfg: Config, k: Known, disk: Base, b: BlockId, data: seq<byte>, iv: nat, ivs: seq<nat>)
    requires Sound(c) && k.me != DELETED && VersionOf(k, k.me, b) + 1 < U64_MAX && ivs != [] && Fits(c, HEADER_LENGTH + |data|)
    ensures var k1 := Increment(k, b).0;
      var disk1 := StackStored(c, k, disk, b, data, iv);
      UpToDate(c, k1, disk1, b, data) && StackReadable(c, disk1, b) && Reload(c, cfg, k1, disk1, b, ivs).result == Data(data)
  {
    var k1 := Increment(k, b).0;
    var disk1 := StackStored(c, k, disk, b, data, iv);
    IncrementEffect(k, b, k.me, b);
    HeaderRoundTrip(b, k.me, VersionOf(k, k.me, b) + 1, data);
    assert WrittenBy(c, k1, disk1, b, data, iv, k.me, VersionOf(k, k.me, b) + 1);
    EveryLaterLoad(c, cfg, k1, disk1, b, data, ivs);
  }

  /** Beyond that size nothing that was stored can be loaded again. */
  lemma {:induction false} OversizedIsLost(c: Cipher, cfg: Config, k: Known, disk: Base, b: BlockId, data: seq<byte>, iv: nat, iv': nat)
    requires Sound(c) && VersionOf(k, k.me, b) + 1 < U64_MAX && !Fits(c, HEADER_LENGTH + |data|)
    requires StackReadable(c, StackStored(c, k, disk, b, data, iv), b)
    ensures StackLoad(c, cfg, Increment(k, b).0, StackStored(c, k, disk, b, data, iv), b, iv').result != Data(data)
  {
    var block := Prepend(b, k.me, VersionOf(k, k.me, b) + 1, data);
    HeaderRoundTrip(b, k.me, VersionOf(k, k.me, b) + 1, data);
    FormatRead(FORMAT, c.enc(iv, block));
    var plain := TryDecrypt(c, b, Encrypt(c, iv, block));
    if plain.Plain? {
      assert |plain.data| == PlaintextSize(CiphertextSize(|block|, c.overhead), c.overhead);
      LoadedLength(cfg, Increment(k, b).0, b, plain.data);
    }
  }

  // ---------- files ----------

  const DISK_PREFIX := Ascii("cryfs;block;")
  const DISK_HEADER := DISK_PREFIX + Ascii("0") + [0]

  function FileContent(block: seq<byte>): seq<byte> {
    DISK_HEADER + block
  }

  datatype FileResult = Stripped(block: seq<byte>) | NotSupportedYet | NotABlock

  /** The headers are compared without a length check. */
  function CheckAndRemoveHeader(file: seq<byte>): FileResult
    requires |file| >= |DISK_HEADER|
  {
    if file[..|DISK_HEADER|] == DISK_HEADER then Stripped(file[|DISK_HEADER|..])
    else if file[..|DISK_PREFIX|] == DISK_PREFIX then NotSupportedYet
    else NotABlock
  }

  /** A file yields a block exactly if it is the file of that block. */
  lemma {:induction false} FileHeaderRoundTrip(file: seq<byte>, block: seq<byte>)
    requires |file| >= |DISK_HEADER|
    ensures CheckAndRemoveHeader(file) == Stripped(block) <==> file == FileContent(block)
  {
  }

  /** Any other file is refused: as too new exactly if it starts like a block file, and otherwise as no block. */
  lemma {:induction false} OtherFilesRefused(file: seq<byte>)
    requires |file| >= |DISK_HEADER|
    ensures CheckAndRemoveHeader(file) == NotSupportedYet <==> DISK_PREFIX <= file && !(DISK_HEADER <= file)
    ensures CheckAndRemoveHeader(file) == NotABlock <==> !(DISK_PREFIX <= file)
  {
    assert DISK_HEADER[..|DISK_PREFIX|] == DISK_PREFIX;
    assert file[..|DISK_HEADER|][..|DISK_PREFIX|] == file[..|DISK_PREFIX|];
  }

  // ---------- sizes ----------

  function DiskUsable(physical: nat): nat {
    if physical <= |DISK_HEADER| then 0 else physical - |DISK_HEADER|
  }

  function EncryptedUsable(physical: nat, overhead: U32): nat {
    var base := DiskUsable(physical);
    if base <= overhead + 2 then 0 else PlaintextSize(base - 2, overhead)
  }

  function IntegrityUsable(physical: nat, overhead: U32): nat {
    var base := EncryptedUsable(physical, overhead);
    if base <= HEADER_LENGTH then 0 else base - HEADER_LENGTH
  }

  /** Bytes of a file that are not payload. */
  function TotalOverhead(overhead: U32): nat {
    14 + 2 + overhead + HEADER_LENGTH
  }

  /**
   The usable size is what is left after all overheads, or 0, exactly as long
   as the plaintext size fits 32 bits; beyond that the result wraps around.
   */
  lemma {:induction false} UsableSizeIff(physical: nat, overhead: U32)
    ensures IntegrityUsable(physical, overhead) == (if physical > TotalOverhead(overhead) then physical - TotalOverhead(overhead) else 0)
      <==> physical <= TotalOverhead(overhead) || physical - 16 - overhead < POW32
  {
  }

  /** A physical size of 4 GiB and 79 bytes, with the overhead of AES-GCM: one byte is usable. */
  lemma {:induction false} UsableSizeWraps()
    ensures IntegrityUsable(0x1_0000_004f, 32) == 1
  {
  }

  /**
   Storing a payload of exactly the usable size gives a file of exactly the
   physical size, as long as the ciphertext size fits 32 bits.
   */
  lemma {:induction false} FileFillsPhysicalSize(c: Cipher, iv: nat, b: BlockId, me: U32, v: U64, data: seq<byte>, physical: nat)
    requires Sound(c) && |data| == IntegrityUsable(physical, c.overhead) && |data| > 0
    ensures |FileContent(Encrypt(c, iv, Prepend(b, me, v, data)))| == physical <==> physical - 16 < POW32
  {
    HeaderRoundTrip(b, me, v, data);
  }

  /** A physical size of 4 GiB and 16 bytes: the usable size is right, but storing that much writes headers only. */
  lemma {:induction false} FileSizeWraps(c: Cipher, iv: nat, b: BlockId, me: U32, v: U64, data: seq<byte>)
    requires Sound(c) && c.overhead == 32 && |data| == IntegrityUsable(0x1_0000_0010, 32)
    ensures |data| == 0x1_0000_0010 - TotalOverhead(32) && |FileContent(Encrypt(c, iv, Prepend(b, me, v, data)))| == 16
  {
    HeaderRoundTrip(b, me, v, data);
  }
}
