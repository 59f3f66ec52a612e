/** The file in which a client keeps its known block versions between runs. */
module StateFile {
  import opened Bytes
  import opened KnownVersions
  import opened Serialization

  const PREFIX := Ascii("cryfs.integritydata.knownblockversions;")
  const OLD_HEADER := PREFIX + Ascii("0")
  const HEADER := PREFIX + Ascii("1")

  datatype VersionEntry = VersionEntry(key: ClientAndBlock, version: U64)
  datatype LastEntry = LastEntry(block: BlockId, client: U32)

  // ---------- writing ----------

  function EncodeVersion(e: VersionEntry): (r: seq<byte>)
    ensures |r| == 28
  {
    Encode(e.key.client, 4) + e.key.block + Encode(e.version, 8)
  }

  function EncodeLast(e: LastEntry): (r: seq<byte>)
    ensures |r| == 20
  {
    e.block + Encode(e.client, 4)
  }

  function EncodeVersions(es: seq<VersionEntry>): (r: seq<byte>)
    ensures |r| == 28 * |es|
  {
    if es == [] then [] else EncodeVersions(es[..|es| - 1]) + EncodeVersion(es[|es| - 1])
  }

  function EncodeLasts(es: seq<LastEntry>): (r: seq<byte>)
    ensures |r| == 20 * |es|
  {
    if es == [] then [] else EncodeLasts(es[..|es| - 1]) + EncodeLast(es[|es| - 1])
  }

  /** What follows the string and, in the current format, the flag. */
  function EncodeTables(vs: seq<VersionEntry>, ls: seq<LastEntry>): seq<byte> {
    Encode(|vs|, 8) + EncodeVersions(vs) + Encode(|ls|, 8) + EncodeLasts(ls)
  }

  function EncodeFile(violation: bool, vs: seq<VersionEntry>, ls: seq<LastEntry>): seq<byte> {
    HEADER + [0] + EncodeBool(violation) + EncodeTables(vs, ls)
  }

  function EncodeOldFile(vs: seq<VersionEntry>, ls: seq<LastEntry>): seq<byte> {
    OLD_HEADER + [0] + EncodeTables(vs, ls)
  }

  /** `vs` lists the table `m` once, in some iteration order. */
  predicate ListsVersions(vs: seq<VersionEntry>, m: map<ClientAndBlock, U64>) {
    if vs == [] then m == map[]
    else
      var e := vs[|vs| - 1];
      e.key in m && m[e.key] == e.version && ListsVersions(vs[..|vs| - 1], m - {e.key})
  }

  predicate ListsLasts(ls: seq<LastEntry>, m: map<BlockId, U32>) {
    if ls == [] then m == map[]
    else
      var e := ls[|ls| - 1];
      e.block in m && m[e.block] == e.client && ListsLasts(ls[..|ls| - 1], m - {e.block})
  }

  // ---------- reading ----------

  /** `insert` of the source does not replace an entry that is there. */
  function InsertVersion(m: map<ClientAndBlock, U64>, e: VersionEntry): map<ClientAndBlock, U64> {
    if e.key in m then m else m[e.key := e.version]
  }

  function InsertLast(m: map<BlockId, U32>, e: LastEntry): map<BlockId, U32> {
    if e.block in m then m else m[e.block := e.client]
  }

  function VersionTable(vs: seq<VersionEntry>): map<ClientAndBlock, U64> {
    if vs == [] then map[] else InsertVersion(VersionTable(vs[..|vs| - 1]), vs[|vs| - 1])
  }

  function LastTable(ls: seq<LastEntry>): map<BlockId, U32> {
    if ls == [] then map[] else InsertLast(LastTable(ls[..|ls| - 1]), ls[|ls| - 1])
  }

  /** Of several entries for one key the first one counts. */
  lemma {:induction false} FirstVersionCounts(vs: seq<VersionEntry>, i: nat)
    requires i < |vs| && forall j | 0 <= j < i :: vs[j].key != vs[i].key
    ensures vs[i].key in VersionTable(vs) && VersionTable(vs)[vs[i].key] == vs[i].version
  {
    var n := |vs| - 1;
    if i < n {
      FirstVersionCounts(vs[..n], i);
    } else {
      NotYetListed(vs[..n], vs[n].key);
    }
  }

  lemma {:induction false} NotYetListed(vs: seq<VersionEntry>, key: ClientAndBlock)
    requires forall j | 0 <= j < |vs| :: vs[j].key != key
    ensures key !in VersionTable(vs)
  {
    if vs != [] {
      NotYetListed(vs[..|vs| - 1], key);
    }
  }

  lemma {:induction false} FirstLastCounts(ls: seq<LastEntry>, i: nat)
    requires i < |ls| && forall j | 0 <= j < i :: ls[j].block != ls[i].block
    ensures ls[i].block in LastTable(ls) && LastTable(ls)[ls[i].block] == ls[i].client
  {
    var n := |ls| - 1;
    if i < n {
      FirstLastCounts(ls[..n], i);
    } else {
      LastNotYetListed(ls[..n], ls[n].block);
    }
  }

  lemma {:induction false} LastNotYetListed(ls: seq<LastEntry>, block: BlockId)
    requires forall j | 0 <= j < |ls| :: ls[j].block != block
    ensures block !in LastTable(ls)
  {
    if ls != [] {
      LastNotYetListed(ls[..|ls| - 1], block);
    }
  }

  function VersionAt(src: seq<byte>, pos: nat): Parsed<VersionEntry> {
    if pos + 4 > |src| then Throws
    else if pos + 20 > |src| then OutOfBounds
    else if pos + 28 > |src| then Throws
    else
      FieldRange(src[pos..pos + 4]); FieldRange(src[pos + 20..pos + 28]);
      Ok(VersionEntry(ClientAndBlock(Decode(src[pos..pos + 4]), src[pos + 4..pos + 20]), Decode(src[pos + 20..pos + 28])), pos + 28)
  }

  function LastAt(src: seq<byte>, pos: nat): Parsed<LastEntry> {
    if pos + 16 > |src| then OutOfBounds
    else if pos + 20 > |src| then Throws
    else
      FieldRange(src[pos + 16..pos + 20]);
      Ok(LastEntry(src[pos..pos + 16], Decode(src[pos + 16..pos + 20])), pos + 20)
  }

  function VersionsAt(src: seq<byte>, pos: nat, n: nat, acc: map<ClientAndBlock, U64>): Parsed<map<ClientAndBlock, U64>>
    decreases n
  {
    if n == 0 then Ok(acc, pos)
    else match VersionAt(src, pos)
      case Ok(e, next) => VersionsAt(src, next, n - 1, InsertVersion(acc, e))
      case Throws => Throws
      case OutOfBounds => OutOfBounds
  }

  function LastsAt(src: seq<byte>, pos: nat, n: nat, acc: map<BlockId, U32>): Parsed<map<BlockId, U32>>
    decreases n
  {
    if n == 0 then Ok(acc, pos)
    else match LastAt(src, pos)
      case Ok(e, next) => LastsAt(src, next, n - 1, InsertLast(acc, e))
      case Throws => Throws
      case OutOfBounds => OutOfBounds
  }

  datatype Tables = Tables(versions: map<ClientAndBlock, U64>, last: map<BlockId, U32>)

  /** Both tables, which must end exactly at the end of the file. */
  function TablesAt(src: seq<byte>, pos: nat): Parsed<Tables> {
    match UintAt(src, pos, 8)
    case Throws => Throws
    case OutOfBounds => OutOfBounds
    case Ok(n, p1) =>
      match VersionsAt(src, p1, n, map[])
      case Throws => Throws
      case OutOfBounds => OutOfBounds
      case Ok(versions, p2) =>
        match UintAt(src, p2, 8)
        case Throws => Throws
        case OutOfBounds => OutOfBounds
        case Ok(k, p3) =>
          match LastsAt(src, p3, k, map[])
          case Throws => Throws
          case OutOfBounds => OutOfBounds
          case Ok(last, p4) => if p4 == |src| then Ok(Tables(versions, last), p4) else Throws
  }

  /** `resave` is set when a file in the old format has to be written back in the current one. */
  datatype Loaded = Loaded(known: Known, resave: bool) | Failed | ReadPastEnd

  function LoadFile(me: U32, file: Option<seq<byte>>): Loaded {
    match file
    case None => Loaded(Known(me, false, map[], map[]), false)
    case Some(src) =>
      match StringAt(src, 0)
      case Throws => Failed
      case OutOfBounds => ReadPastEnd
      case Ok(header, pos) =>
        if header == OLD_HEADER then LoadTables(me, false, src, pos, true)
        else if header != HEADER then Failed
        else match BoolAt(src, pos)
          case Throws => Failed
          case OutOfBounds => ReadPastEnd
          case Ok(flag, next) => LoadTables(me, flag, src, next, false)
  }

  function LoadTables(me: U32, flag: bool, src: seq<byte>, pos: nat, resave: bool): Loaded {
    match TablesAt(src, pos)
    case Throws => Failed
    case OutOfBounds => ReadPastEnd
    case Ok(t, _) => Loaded(Known(me, flag, t.versions, t.last), resave)
  }

  // ---------- round trip ----------

  lemma {:induction false} ListedTable(vs: seq<VersionEntry>, m: map<ClientAndBlock, U64>)
    requires ListsVersions(vs, m)
    ensures VersionTable(vs) == m
  {
    if vs != [] {
      var e := vs[|vs| - 1];
      ListedTable(vs[..|vs| - 1], m - {e.key});
      assert (m - {e.key})[e.key := e.version] == m;
    }
  }

  lemma {:induction false} ListedLast(ls: seq<LastEntry>, m: map<BlockId, U32>)
    requires ListsLasts(ls, m)
    ensures LastTable(ls) == m
  {
    if ls != [] {
      var e := ls[|ls| - 1];
      ListedLast(ls[..|ls| - 1], m - {e.block});
      assert (m - {e.block})[e.block := e.client] == m;
    }
  }

  lemma {:induction false} VersionReadsBack(front: seq<byte>, e: VersionEntry, back: seq<byte>)
    ensures VersionAt(front + EncodeVersion(e) + back, |front|) == Ok(e, |front| + 28)
  {
    var src := front + EncodeVersion(e) + back;
    var pos := |front|;
    Widths();
    DecodeEncode(e.key.client, 4);
    DecodeEncode(e.version, 8);
    assert src[pos..pos + 4] == Encode(e.key.client, 4);
    assert src[pos + 4..pos + 20] == e.key.block;
    assert src[pos + 20..pos + 28] == Encode(e.version, 8);
  }

  lemma {:induction false} LastReadsBack(front: seq<byte>, e: LastEntry, back: seq<byte>)
    ensures LastAt(front + EncodeLast(e) + back, |front|) == Ok(e, |front| + 20)
  {
    var src := front + EncodeLast(e) + back;
    var pos := |front|;
    Widths();
    DecodeEncode(e.client, 4);
    assert src[pos..pos + 16] == e.block;
    assert src[pos + 16..pos + 20] == Encode(e.client, 4);
  }

  lemma {:induction false} UintReadsBack(front: seq<byte>, n: U64, back: seq<byte>)
    ensures UintAt(front + Encode(n, 8) + back, |front|, 8) == Ok(n, |front| + 8)
  {
    Widths();
    DecodeEncode(n, 8);
    assert (front + Encode(n, 8) + back)[|front|..|front| + 8] == Encode(n, 8);
  }

  /** A table can be taken apart from the front as well. */
  lemma {:induction false} VersionsFront(vs: seq<VersionEntry>)
    requires vs != []
    ensures EncodeVersions(vs) == EncodeVersion(vs[0]) + EncodeVersions(vs[1..])
  {
    if |vs| > 1 {
      VersionsFront(vs[..|vs| - 1]);
      assert vs[..|vs| - 1][1..] == vs[1..][..|vs| - 2];
    }
  }

  lemma {:induction false} LastsFront(ls: seq<LastEntry>)
    requires ls != []
    ensures EncodeLasts(ls) == EncodeLast(ls[0]) + EncodeLasts(ls[1..])
  {
    if |ls| > 1 {
      LastsFront(ls[..|ls| - 1]);
      assert ls[..|ls| - 1][1..] == ls[1..][..|ls| - 2];
    }
  }

  lemma {:induction false} Reassociate(a: seq<byte>, b: seq<byte>, c: seq<byte>, d: seq<byte>)
    ensures a + (b + c) + d == a + b + (c + d) == a + b + c + d
  {
  }

  lemma {:induction false} VersionsStep(src: seq<byte>, pos: nat, n: nat, table: map<ClientAndBlock, U64>, e: VersionEntry)
    requires n > 0 && VersionAt(src, pos) == Ok(e, pos + 28)
    ensures VersionsAt(src, pos, n, table) == VersionsAt(src, pos + 28, n - 1, InsertVersion(table, e))
  {
  }

  lemma {:induction false} LastsStep(src: seq<byte>, pos: nat, n: nat, table: map<BlockId, U32>, e: LastEntry)
    requires n > 0 && LastAt(src, pos) == Ok(e, pos + 20)
    ensures LastsAt(src, pos, n, table) == LastsAt(src, pos + 20, n - 1, InsertLast(table, e))
  {
  }

  /** Reading on after the entries `done`. */
  lemma {:induction false} VersionsReadBack(front: seq<byte>, done: seq<VersionEntry>, vs: seq<VersionEntry>, back: seq<byte>)
    ensures VersionsAt(front + EncodeVersions(vs) + back, |front|, |vs|, VersionTable(done)) == Ok(VersionTable(done + vs), |front| + 28 * |vs|)
    decreases |vs|
  {
    if vs == [] {
      assert done + vs == done;
    } else {
      var e, rest := vs[0], EncodeVersions(vs[1..]);
      VersionsFront(vs);
      Reassociate(front, EncodeVersion(e), rest, back);
      VersionReadsBack(front, e, rest + back);
      VersionsReadBack(front + EncodeVersion(e), done + [e], vs[1..], back);
      assert (done + [e])[..|done|] == done && done + vs == done + [e] + vs[1..];
      VersionsStep(front + EncodeVersion(e) + (rest + back), |front|, |vs|, VersionTable(done), e);
    }
  }

  lemma {:induction false} LastsReadBack(front: seq<byte>, done: seq<LastEntry>, ls: seq<LastEntry>, back: seq<byte>)
    ensures LastsAt(front + EncodeLasts(ls) + back, |front|, |ls|, LastTable(done)) == Ok(LastTable(done + ls), |front| + 20 * |ls|)
    decreases |ls|
  {
    if ls == [] {
      assert done + ls == done;
    } else {
      var e, rest := ls[0], EncodeLasts(ls[1..]);
      LastsFront(ls);
      Reassociate(front, EncodeLast(e), rest, back);
      LastReadsBack(front, e, rest + back);
      LastsReadBack(front + EncodeLast(e), done + [e], ls[1..], back);
      assert (done + [e])[..|done|] == done && done + ls == done + [e] + ls[1..];
      LastsStep(front + EncodeLast(e) + (rest + back), |front|, |ls|, LastTable(done), e);
    }
  }

  lemma {:induction false} VersionPart(src: seq<byte>, front: seq<byte>, vs: seq<VersionEntry>, back: seq<byte>)
    requires |vs| <= U64_MAX && src == front + Encode(|vs|, 8) + EncodeVersions(vs) + back
    ensures UintAt(src, |front|, 8) == Ok(|vs|, |front| + 8)
    ensures VersionsAt(src, |front| + 8, |vs|, map[]) == Ok(VersionTable(vs), |front| + 8 + 28 * |vs|)
  {
    var count := Encode(|vs|, 8);
    assert src == front + count + (EncodeVersions(vs) + back);
    UintReadsBack(front, |vs|, EncodeVersions(vs) + back);
    VersionsReadBack(front + count, [], vs, back);
    assert [] + vs == vs;
  }

  lemma {:induction false} LastPart(src: seq<byte>, front: seq<byte>, ls: seq<LastEntry>, back: seq<byte>)
    requires |ls| <= U64_MAX && src == front + Encode(|ls|, 8) + EncodeLasts(ls) + back
    ensures UintAt(src, |front|, 8) == Ok(|ls|, |front| + 8)
    ensures LastsAt(src, |front| + 8, |ls|, map[]) == Ok(LastTable(ls), |front| + 8 + 20 * |ls|)
  {
    var count := Encode(|ls|, 8);
    assert src == front + count + (EncodeLasts(ls) + back);
    UintReadsBack(front, |ls|, EncodeLasts(ls) + back);
    LastsReadBack(front + count, [], ls, back);
    assert [] + ls == ls;
  }

  lemma {:induction false} Regroup(front: seq<byte>, a: seq<byte>, b: seq<byte>, c: seq<byte>, d: seq<byte>)
    ensures front + (a + b + c + d) == front + a + b + (c + d)
    ensures front + (a + b + c + d) == (front + a + b) + c + d + []
  {
  }

  lemma {:induction false} FirstTable(src: seq<byte>, pos: nat, front: seq<byte>, vs: seq<VersionEntry>, ls: seq<LastEntry>)
    requires |vs| <= U64_MAX && |ls| <= U64_MAX
    requires src == front + EncodeTables(vs, ls) && pos == |front|
    ensures
      && UintAt(src, pos, 8) == Ok(|vs|, pos + 8)
      && VersionsAt(src, pos + 8, |vs|, map[]) == Ok(VersionTable(vs), pos + 8 + 28 * |vs|)
  {
    var a, b, c, d := Encode(|vs|, 8), EncodeVersions(vs), Encode(|ls|, 8), EncodeLasts(ls);
    Regroup(front, a, b, c, d);
    VersionPart(src, front, vs, c + d);
  }

  lemma {:induction false} Halves(front: seq<byte>, vs: seq<VersionEntry>, ls: seq<LastEntry>) returns (mid: seq<byte>)
    requires |vs| <= U64_MAX && |ls| <= U64_MAX
    ensures |mid| == |front| + 8 + 28 * |vs|
    ensures front + EncodeTables(vs, ls) == mid + Encode(|ls|, 8) + EncodeLasts(ls) + []
  {
    Regroup(front, Encode(|vs|, 8), EncodeVersions(vs), Encode(|ls|, 8), EncodeLasts(ls));
    mid := front + Encode(|vs|, 8) + EncodeVersions(vs);
  }

  lemma {:induction false} SecondTable(src: seq<byte>, pos: nat, front: seq<byte>, vs: seq<VersionEntry>, ls: seq<LastEntry>)
    requires |vs| <= U64_MAX && |ls| <= U64_MAX
    requires src == front + EncodeTables(vs, ls) && pos == |front| + 8 + 28 * |vs|
    ensures UintAt(src, pos, 8) == Ok(|ls|, pos + 8)
    ensures LastsAt(src, pos + 8, |ls|, map[]) == Ok(LastTable(ls), |src|)
  {
    var mid := Halves(front, vs, ls);
    LastPart(src, mid, ls, []);
  }

  lemma {:induction false} TablesReadBack(front: seq<byte>, vs: seq<VersionEntry>, ls: seq<LastEntry>)
    requires |vs| <= U64_MAX && |ls| <= U64_MAX
    ensures var src := front + EncodeTables(vs, ls);
      TablesAt(src, |front|) == Ok(Tables(VersionTable(vs), LastTable(ls)), |src|)
  {
    var src, pos, p := front + EncodeTables(vs, ls), |front|, |front| + 8 + 28 * |vs|;
    FirstTable(src, pos, front, vs, ls);
    SecondTable(src, p, front, vs, ls);
    TablesFromParts(src, pos, |vs|, VersionTable(vs), p, |ls|, LastTable(ls));
  }

  lemma {:induction false} TablesFromParts(
    src: seq<byte>, pos: nat, n: nat, versions: map<ClientAndBlock, U64>, p: nat, k: nat, last: map<BlockId, U32>)
    requires UintAt(src, pos, 8) == Ok(n, pos + 8) && VersionsAt(src, pos + 8, n, map[]) == Ok(versions, p)
    requires UintAt(src, p, 8) == Ok(k, p + 8) && LastsAt(src, p + 8, k, map[]) == Ok(last, |src|)
    ensures TablesAt(src, pos) == Ok(Tables(versions, last), |src|)
  {
  }

  lemma {:induction false} HeadersNullFree()
    ensures forall i | 0 <= i < |HEADER| :: HEADER[i] != 0
    ensures forall i | 0 <= i < |OLD_HEADER| :: OLD_HEADER[i] != 0
    ensures HEADER != OLD_HEADER
  {
    assert forall i | 0 <= i < |PREFIX| :: PREFIX[i] != 0;
    assert HEADER[|PREFIX|] != OLD_HEADER[|PREFIX|];
  }

  /** Every encoding loads, with the first of several entries for one key; a file in the current format stays as it is. */
  lemma {:induction false} EncodingLoads(me: U32, flag: bool, vs: seq<VersionEntry>, ls: seq<LastEntry>)
    requires |vs| <= U64_MAX && |ls| <= U64_MAX
    ensures LoadFile(me, Some(EncodeFile(flag, vs, ls))) == Loaded(Known(me, flag, VersionTable(vs), LastTable(ls)), false)
  {
    var front := HEADER + [0] + EncodeBool(flag);
    var src := EncodeFile(flag, vs, ls);
    HeadersNullFree();
    StringUpTo(src, 0, |HEADER|);
    assert src[0..|HEADER|] == HEADER;
    assert src[|HEADER| + 1..|HEADER| + 2] == EncodeBool(flag);
    Widths();
    DecodeEncode(if flag then 1 else 0, 1);
    TablesReadBack(front, vs, ls);
  }

  lemma {:induction false} OldEncodingLoads(me: U32, vs: seq<VersionEntry>, ls: seq<LastEntry>)
    requires |vs| <= U64_MAX && |ls| <= U64_MAX
    ensures LoadFile(me, Some(EncodeOldFile(vs, ls))) == Loaded(Known(me, false, VersionTable(vs), LastTable(ls)), true)
  {
    var src := EncodeOldFile(vs, ls);
    HeadersNullFree();
    StringUpTo(src, 0, |OLD_HEADER|);
    assert src[0..|OLD_HEADER|] == OLD_HEADER;
    TablesReadBack(OLD_HEADER + [0], vs, ls);
  }

  /**
   Whatever order the tables are iterated in when the file is written, loading
   it gives the same flag and the same tables.
   */
  lemma {:induction false} FileRoundTrip(k: Known, vs: seq<VersionEntry>, ls: seq<LastEntry>)
    requires ListsVersions(vs, k.versions) && ListsLasts(ls, k.last) && |vs| <= U64_MAX && |ls| <= U64_MAX
    ensures LoadFile(k.me, Some(EncodeFile(k.violation, vs, ls))) == Loaded(k, false)
  {
    EncodingLoads(k.me, k.violation, vs, ls);
    ListedTable(vs, k.versions);
    ListedLast(ls, k.last);
  }

  /** The first mount finds no file: nothing is known of any block, none is expected, and nothing was violated. */
  lemma {:induction false} FirstMount(me: U32, c: U32, b: BlockId)
    ensures var r := LoadFile(me, None);
      && r.Loaded? && !r.resave && r.known.me == me && !r.known.violation
      && VersionOf(r.known, c, b) == 0 && LastOf(r.known, b) == DELETED && Existing(r.known) == {}
  {
  }

  /**
   A file in the old format loads with the flag unset and asks to be written
   back; what is then written, in any order, loads to the same state.
   */
  lemma {:induction false} OldFileLoads(
    me: U32, versions: map<ClientAndBlock, U64>, last: map<BlockId, U32>,
    vs: seq<VersionEntry>, ls: seq<LastEntry>, vs': seq<VersionEntry>, ls': seq<LastEntry>)
    requires ListsVersions(vs, versions) && ListsLasts(ls, last) && |vs| <= U64_MAX && |ls| <= U64_MAX
    requires ListsVersions(vs', versions) && ListsLasts(ls', last) && |vs'| <= U64_MAX && |ls'| <= U64_MAX
    ensures LoadFile(me, Some(EncodeOldFile(vs, ls))) == Loaded(Known(me, false, versions, last), true)
    ensures LoadFile(me, Some(EncodeFile(false, vs', ls'))) == Loaded(Known(me, false, versions, last), false)
  {
    OldEncodingLoads(me, vs, ls);
    ListedTable(vs, versions);
    ListedLast(ls, last);
    FileRoundTrip(Known(me, false, versions, last), vs', ls');
  }

  // ---------- only encodings load ----------

  lemma {:induction false} VersionWas(src: seq<byte>, pos: nat)
    requires VersionAt(src, pos).Ok?
    ensures pos + 28 <= |src| && VersionAt(src, pos).next == pos + 28
    ensures src[pos..pos + 28] == EncodeVersion(VersionAt(src, pos).value)
  {
    EncodeDecode(src[pos..pos + 4]);
    EncodeDecode(src[pos + 20..pos + 28]);
    assert src[pos..pos + 28] == src[pos..pos + 4] + src[pos + 4..pos + 20] + src[pos + 20..pos + 28];
  }

  lemma {:induction false} LastWas(src: seq<byte>, pos: nat)
    requires LastAt(src, pos).Ok?
    ensures pos + 20 <= |src| && LastAt(src, pos).next == pos + 20
    ensures src[pos..pos + 20] == EncodeLast(LastAt(src, pos).value)
  {
    EncodeDecode(src[pos + 16..pos + 20]);
    assert src[pos..pos + 20] == src[pos..pos + 16] + src[pos + 16..pos + 20];
  }

  /** Reading on after the entries `done`, which started at `from`. */
  lemma {:induction false} VersionsWere(src: seq<byte>, from: nat, done: seq<VersionEntry>, pos: nat, n: nat)
    returns (vs: seq<VersionEntry>)
    requires from <= pos <= |src| && src[from..pos] == EncodeVersions(done)
    requires VersionsAt(src, pos, n, VersionTable(done)).Ok?
    ensures var r := VersionsAt(src, pos, n, VersionTable(done));
      pos <= r.next <= |src| && |vs| == |done| + n && r.value == VersionTable(vs) && src[from..r.next] == EncodeVersions(vs)
    decreases n
  {
    if n == 0 {
      vs := done;
    } else {
      var Ok(e, next) := VersionAt(src, pos);
      VersionWas(src, pos);
      assert src[from..next] == src[from..pos] + src[pos..next];
      assert (done + [e])[..|done|] == done;
      vs := VersionsWere(src, from, done + [e], next, n - 1);
    }
  }

  lemma {:induction false} LastsWere(src: seq<byte>, from: nat, done: seq<LastEntry>, pos: nat, n: nat)
    returns (ls: seq<LastEntry>)
    requires from <= pos <= |src| && src[from..pos] == EncodeLasts(done)
    requires LastsAt(src, pos, n, LastTable(done)).Ok?
    ensures var r := LastsAt(src, pos, n, LastTable(done));
      pos <= r.next <= |src| && |ls| == |done| + n && r.value == LastTable(ls) && src[from..r.next] == EncodeLasts(ls)
    decreases n
  {
    if n == 0 {
      ls := done;
    } else {
      var Ok(e, next) := LastAt(src, pos);
      LastWas(src, pos);
      assert src[from..next] == src[from..pos] + src[pos..next];
      assert (done + [e])[..|done|] == done;
      ls := LastsWere(src, from, done + [e], next, n - 1);
    }
  }

  /** The parts of tables that were read, and where they lie. */
  lemma {:induction false} TablesParts(src: seq<byte>, pos: nat) returns (p1: nat, n: nat, p2: nat, p3: nat, k: nat)
    requires pos <= |src| && TablesAt(src, pos).Ok?
    ensures UintAt(src, pos, 8) == Ok(n, p1) && VersionsAt(src, p1, n, map[]).Ok? && VersionsAt(src, p1, n, map[]).next == p2
    ensures UintAt(src, p2, 8) == Ok(k, p3) && LastsAt(src, p3, k, map[]).Ok? && LastsAt(src, p3, k, map[]).next == |src|
    ensures TablesAt(src, pos).value == Tables(VersionsAt(src, p1, n, map[]).value, LastsAt(src, p3, k, map[]).value)
  {
    n, p1 := UintAt(src, pos, 8).value, UintAt(src, pos, 8).next;
    p2 := VersionsAt(src, p1, n, map[]).next;
    k, p3 := UintAt(src, p2, 8).value, UintAt(src, p2, 8).next;
  }

  lemma {:induction false} UintWas(src: seq<byte>, pos: nat)
    requires UintAt(src, pos, 8).Ok?
    ensures pos + 8 <= |src| && UintAt(src, pos, 8).next == pos + 8
    ensures src[pos..pos + 8] == Encode(UintAt(src, pos, 8).value, 8) && UintAt(src, pos, 8).value <= U64_MAX
  {
    EncodeDecode(src[pos..pos + 8]);
    FieldRange(src[pos..pos + 8]);
  }

  lemma {:induction false} TablesWere(src: seq<byte>, pos: nat) returns (vs: seq<VersionEntry>, ls: seq<LastEntry>)
    requires pos <= |src| && TablesAt(src, pos).Ok?
    ensures |vs| <= U64_MAX && |ls| <= U64_MAX
    ensures src[pos..] == EncodeTables(vs, ls)
    ensures TablesAt(src, pos).value == Tables(VersionTable(vs), LastTable(ls))
  {
    var p1, n, p2, p3, k := TablesParts(src, pos);
    UintWas(src, pos);
    UintWas(src, p2);
    vs := VersionsWere(src, p1, [], p1, n);
    ls := LastsWere(src, p3, [], p3, k);
    Join(src, pos, p1, p2, p3);
  }

  lemma {:induction false} Join(src: seq<byte>, a: nat, b: nat, c: nat, d: nat)
    requires a <= b <= c <= d <= |src|
    ensures src[a..] == src[a..b] + src[b..c] + src[c..d] + src[d..|src|]
  {
  }

  lemma {:induction false} Split2<T>(s: seq<T>, a: nat)
    requires a <= |s|
    ensures s == s[0..a] + s[a..]
  {
  }

  lemma {:induction false} BoolWas(src: seq<byte>, pos: nat)
    requires BoolAt(src, pos).Ok?
    ensures pos + 1 <= |src| && BoolAt(src, pos).next == pos + 1 && src[pos..pos + 1] == EncodeBool(BoolAt(src, pos).value)
  {
  }

  /** A file that loads is, byte for byte, an encoding of what was loaded. */
  lemma {:induction false} LoadedFileIsEncoding(me: U32, src: seq<byte>) returns (vs: seq<VersionEntry>, ls: seq<LastEntry>)
    requires LoadFile(me, Some(src)).Loaded?
    ensures |vs| <= U64_MAX && |ls| <= U64_MAX
    ensures var Loaded(k, resave) := LoadFile(me, Some(src));
      && k == Known(me, k.violation, VersionTable(vs), LastTable(ls))
      && src == (if resave then EncodeOldFile(vs, ls) else EncodeFile(k.violation, vs, ls))
      && (resave ==> !k.violation)
  {
    StringWas(src, 0);
    var pos := StringAt(src, 0).next;
    Split2(src, pos);
    if StringAt(src, 0).value == OLD_HEADER {
      vs, ls := TablesWere(src, pos);
    } else {
      BoolWas(src, pos);
      vs, ls := TablesWere(src, pos + 1);
      assert src[pos..] == src[pos..pos + 1] + src[pos + 1..];
    }
  }

  // ---------- the two operations ----------

  ghost predicate IsEncoding(src: seq<byte>) {
    exists flag: bool, vs: seq<VersionEntry>, ls: seq<LastEntry> :: Encodes(src, flag, vs, ls)
  }

  ghost predicate Encodes(src: seq<byte>, flag: bool, vs: seq<VersionEntry>, ls: seq<LastEntry>) {
    |vs| <= U64_MAX && |ls| <= U64_MAX && (src == EncodeFile(flag, vs, ls) || src == EncodeOldFile(vs, ls))
  }

  /** Exactly the encodings load; every other file is refused. */
  lemma {:induction false} LoadsIffEncoding(me: U32, src: seq<byte>)
    ensures LoadFile(me, Some(src)).Loaded? <==> IsEncoding(src)
  {
    if LoadFile(me, Some(src)).Loaded? {
      var vs, ls := LoadedFileIsEncoding(me, src);
      assert Encodes(src, LoadFile(me, Some(src)).known.violation, vs, ls);
    }
    if IsEncoding(src) {
      var flag: bool, vs, ls :| Encodes(src, flag, vs, ls);
      EncodingLoads(me, flag, vs, ls);
      OldEncodingLoads(me, vs, ls);
    }
  }

  /** One more entry listed: `todo` are the keys not listed yet. */
  lemma {:induction false} ListVersion(vs: seq<VersionEntry>, m: map<ClientAndBlock, U64>, todo: set<ClientAndBlock>, key: ClientAndBlock)
    requires ListsVersions(vs, m - todo) && key in todo && key in m
    ensures ListsVersions(vs + [VersionEntry(key, m[key])], m - (todo - {key}))
  {
    assert m - (todo - {key}) - {key} == m - todo;
    assert (vs + [VersionEntry(key, m[key])])[..|vs|] == vs;
  }

  lemma {:induction false} ListLast(ls: seq<LastEntry>, m: map<BlockId, U32>, todo: set<BlockId>, block: BlockId)
    requires ListsLasts(ls, m - todo) && block in todo && block in m
    ensures ListsLasts(ls + [LastEntry(block, m[block])], m - (todo - {block}))
  {
    assert m - (todo - {block}) - {block} == m - todo;
    assert (ls + [LastEntry(block, m[block])])[..|ls|] == ls;
  }

  lemma {:induction false} AppendVersion(front: seq<byte>, vs: seq<VersionEntry>, e: VersionEntry)
    ensures front + EncodeVersions(vs) + EncodeVersion(e) == front + EncodeVersions(vs + [e])
  {
  }

  lemma {:induction false} AppendLast(front: seq<byte>, ls: seq<LastEntry>, e: LastEntry)
    ensures front + EncodeLasts(ls) + EncodeLast(e) == front + EncodeLasts(ls + [e])
  {
  }

  method SerializeVersion(s: Serializer, e: VersionEntry) returns (ok: bool)
    requires s.Valid() && s.pos + 28 <= s.buffer.Length
    modifies s`pos, s.buffer
    ensures s.Valid() && ok && s.Written() == old(s.Written()) + EncodeVersion(e)
  {
    var ok1 := s.WriteUint(e.key.client, 4);
    var ok2 := s.WriteData(e.key.block);
    var ok3 := s.WriteUint(e.version, 8);
    return ok1 && ok2 && ok3;
  }

  method SerializeLast(s: Serializer, e: LastEntry) returns (ok: bool)
    requires s.Valid() && s.pos + 20 <= s.buffer.Length
    modifies s`pos, s.buffer
    ensures s.Valid() && ok && s.Written() == old(s.Written()) + EncodeLast(e)
  {
    var ok1 := s.WriteData(e.block);
    var ok2 := s.WriteUint(e.client, 4);
    return ok1 && ok2;
  }

  /** Writes the version table; the iteration order is whatever `:|` picks. */
  method SerializeVersions(s: Serializer, m: map<ClientAndBlock, U64>) returns (ok: bool, ghost vs: seq<VersionEntry>)
    requires s.Valid() && s.pos + 8 + 28 * |m| <= s.buffer.Length
    modifies s`pos, s.buffer
    ensures s.Valid() && ok && ListsVersions(vs, m) && |vs| == |m|
    ensures s.Written() == old(s.Written()) + Encode(|m|, 8) + EncodeVersions(vs)
  {
    ok := s.WriteUint(|m|, 8);
    vs := [];
    var todo := m.Keys;
    ghost var front := s.Written();
    while todo != {}
      invariant s.Valid() && ok && todo <= m.Keys && |vs| + |todo| == |m|
      invariant ListsVersions(vs, m - todo)
      invariant s.Written() == front + EncodeVersions(vs)
      decreases |todo|
    {
      var key :| key in todo;
      ok := SerializeVersion(s, VersionEntry(key, m[key]));
      ListVersion(vs, m, todo, key);
      AppendVersion(front, vs, VersionEntry(key, m[key]));
      vs, todo := vs + [VersionEntry(key, m[key])], todo - {key};
    }
    assert m - todo == m;
  }

  method SerializeLasts(s: Serializer, m: map<BlockId, U32>) returns (ok: bool, ghost ls: seq<LastEntry>)
    requires s.Valid() && s.pos + 8 + 20 * |m| <= s.buffer.Length
    modifies s`pos, s.buffer
    ensures s.Valid() && ok && ListsLasts(ls, m) && |ls| == |m|
    ensures s.Written() == old(s.Written()) + Encode(|m|, 8) + EncodeLasts(ls)
  {
    ok := s.WriteUint(|m|, 8);
    ls := [];
    var todo := m.Keys;
    ghost var front := s.Written();
    while todo != {}
      invariant s.Valid() && ok && todo <= m.Keys && |ls| + |todo| == |m|
      invariant ListsLasts(ls, m - todo)
      invariant s.Written() == front + EncodeLasts(ls)
      decreases |todo|
    {
      var block :| block in todo;
      ok := SerializeLast(s, LastEntry(block, m[block]));
      ListLast(ls, m, todo, block);
      AppendLast(front, ls, LastEntry(block, m[block]));
      ls, todo := ls + [LastEntry(block, m[block])], todo - {block};
    }
    assert m - todo == m;
  }

  lemma {:induction false} FileJoin(h: seq<byte>, a: seq<byte>, b: seq<byte>, c: seq<byte>, d: seq<byte>, e: seq<byte>)
    ensures [] + h + [0] + a + b + c + d + e == h + [0] + a + (b + c + d + e)
  {
  }

  /** The precomputed size is exactly what gets written: no write throws and neither does `finished`. */
  method SaveStateFile(k: KnownBlockVersions) returns (file: seq<byte>, ghost vs: seq<VersionEntry>, ghost ls: seq<LastEntry>)
    ensures ListsVersions(vs, k.versions) && ListsLasts(ls, k.last) && |vs| == |k.versions| && |ls| == |k.last|
    ensures file == EncodeFile(k.violation, vs, ls)
    ensures |k.versions| <= U64_MAX && |k.last| <= U64_MAX ==> LoadFile(k.me, Some(file)) == Loaded(k.State(), false)
  {
    var s := new Serializer(|HEADER| + 1 + 1 + 8 + |k.versions| * 28 + 8 + |k.last| * 20);
    var ok1 := s.WriteString(HEADER);
    var ok2 := s.WriteBool(k.violation);
    var ok3, ok4;
    ok3, vs := SerializeVersions(s, k.versions);
    ok4, ls := SerializeLasts(s, k.last);
    FileJoin(HEADER, EncodeBool(k.violation), Encode(|vs|, 8), EncodeVersions(vs), Encode(|ls|, 8), EncodeLasts(ls));
    var r := s.Finished();
    file := r.value;
    if |k.versions| <= U64_MAX && |k.last| <= U64_MAX {
      FileRoundTrip(k.State(), vs, ls);
    }
  }

  method DeserializeVersions(d: Deserializer) returns (r: Parsed<map<ClientAndBlock, U64>>)
    requires d.Valid()
    modifies d
    ensures d.Valid()
    ensures var n := UintAt(d.source, old(d.pos), 8);
      if n.Ok? then r == VersionsAt(d.source, n.next, n.value, map[]) else r == Throws
    ensures r.Ok? ==> d.pos == r.next
  {
    var n := d.ReadUint(8);
    if !n.Ok? { return Throws; }
    var m: map<ClientAndBlock, U64> := map[];
    var i := 0;
    while i < n.value
      invariant d.Valid() && i <= n.value
      invariant VersionsAt(d.source, n.next, n.value, map[]) == VersionsAt(d.source, d.pos, n.value - i, m)
    {
      ghost var at := d.pos;
      var c := d.ReadUint(4);
      if !c.Ok? { return Throws; }
      var b := d.ReadFixed(16);
      if !b.Ok? { return OutOfBounds; }
      var v := d.ReadUint(8);
      if !v.Ok? { return Throws; }
      FieldRange(d.source[at..at + 4]);
      FieldRange(d.source[at + 20..at + 28]);
      m := InsertVersion(m, VersionEntry(ClientAndBlock(c.value, b.value), v.value));
      i := i + 1;
    }
    r := Ok(m, d.pos);
  }

  method DeserializeLasts(d: Deserializer) returns (r: Parsed<map<BlockId, U32>>)
    requires d.Valid()
    modifies d
    ensures d.Valid()
    ensures var n := UintAt(d.source, old(d.pos), 8);
      if n.Ok? then r == LastsAt(d.source, n.next, n.value, map[]) else r == Throws
    ensures r.Ok? ==> d.pos == r.next
  {
    var n := d.ReadUint(8);
    if !n.Ok? { return Throws; }
    var m: map<BlockId, U32> := map[];
    var i := 0;
    while i < n.value
      invariant d.Valid() && i <= n.value
      invariant LastsAt(d.source, n.next, n.value, map[]) == LastsAt(d.source, d.pos, n.value - i, m)
    {
      ghost var at := d.pos;
      var b := d.ReadFixed(16);
      if !b.Ok? { return OutOfBounds; }
      var c := d.ReadUint(4);
      if !c.Ok? { return Throws; }
      FieldRange(d.source[at + 16..at + 20]);
      m := InsertLast(m, LastEntry(b.value, c.value));
      i := i + 1;
    }
    r := Ok(m, d.pos);
  }

  method DeserializeTables(d: Deserializer) returns (r: Parsed<Tables>)
    requires d.Valid()
    modifies d
    ensures r == TablesAt(d.source, old(d.pos))
  {
    var versions := DeserializeVersions(d);
    if versions.Throws? { return Throws; }
    if versions.OutOfBounds? { return OutOfBounds; }
    var last := DeserializeLasts(d);
    if last.Throws? { return Throws; }
    if last.OutOfBounds? { return OutOfBounds; }
    var done := d.Finished();
    if !done { return Throws; }
    r := Ok(Tables(versions.value, last.value), d.pos);
  }

  lemma {:induction false} VersionTableSize(vs: seq<VersionEntry>)
    ensures |VersionTable(vs)| <= |vs|
  {
    if vs != [] {
      VersionTableSize(vs[..|vs| - 1]);
    }
  }

  lemma {:induction false} LastTableSize(ls: seq<LastEntry>)
    ensures |LastTable(ls)| <= |ls|
  {
    if ls != [] {
      LastTableSize(ls[..|ls| - 1]);
    }
  }

  /** The tables of a file that loads have sizes that fit 64 bits. */
  lemma {:induction false} LoadedSizes(me: U32, src: seq<byte>)
    requires LoadFile(me, Some(src)).Loaded?
    ensures var k := LoadFile(me, Some(src)).known; |k.versions| <= U64_MAX && |k.last| <= U64_MAX
  {
    var vs, ls := LoadedFileIsEncoding(me, src);
    VersionTableSize(vs);
    LastTableSize(ls);
  }

  /** Reads a state file; a file in the old format is not yet written back. */
  method ReadStateFile(me: U32, file: Option<seq<byte>>) returns (r: Loaded)
    ensures r == LoadFile(me, file)
  {
    if file.None? { return Loaded(Known(me, false, map[], map[]), false); }
    var d := new Deserializer(file.value);
    var header := d.ReadString();
    if header.Throws? { return Failed; }
    if header.OutOfBounds? { return ReadPastEnd; }
    var flag := false;
    if header.value != OLD_HEADER {
      if header.value != HEADER { return Failed; }
      var b := d.ReadBool();
      if b.Throws? { return Failed; }
      if b.OutOfBounds? { return ReadPastEnd; }
      flag := b.value;
    }
    var t := DeserializeTables(d);
    if t.Throws? { return Failed; }
    if t.OutOfBounds? { return ReadPastEnd; }
    r := Loaded(Known(me, flag, t.value.versions, t.value.last), header.value == OLD_HEADER);
  }

  /**
   Loads what a previous run left, if anything, and returns what is on disk
   afterwards.  A file in the old format has been replaced by one in the current
   format that loads to the same state and does not ask to be replaced again.
   */
  method LoadStateFile(me: U32, file: Option<seq<byte>>)
    returns (r: Loaded, disk: Option<seq<byte>>, ghost vs: seq<VersionEntry>, ghost ls: seq<LastEntry>)
    requires me != DELETED
    ensures r == LoadFile(me, file)
    ensures !(r.Loaded? && r.resave) ==> disk == file
    ensures r.Loaded? && r.resave ==>
      && ListsVersions(vs, r.known.versions) && ListsLasts(ls, r.known.last) && disk == Some(EncodeFile(false, vs, ls))
      && LoadFile(me, disk) == Loaded(r.known, false)
  {
    disk, vs, ls := file, [], [];
    r := ReadStateFile(me, file);
    if r.Loaded? && r.resave {
      LoadedSizes(me, file.value);
      ghost var was, was' := LoadedFileIsEncoding(me, file.value);
      var k := new KnownBlockVersions(me, r.known.violation, r.known.versions, r.known.last);
      var bytes;
      bytes, vs, ls := SaveStateFile(k);
      disk := Some(bytes);
    }
  }
}
