/**
 The integrity layer: every block carries a header with its id, the writing
 client and a version, and a load checks that header against what the client
 knows.
 */
module IntegrityStore {
  import opened Bytes
  import opened KnownVersions
  import opened BlockHeader

  type Block = seq<byte>
  type Base = map<BlockId, Block>

  datatype Config = Config(allowViolations: bool, missingIsViolation: bool)

  datatype HeaderVerdict = Good | Bad | WrongFormat | BadHeader

  /** The last three are exceptions. */
  datatype LoadResult = Data(data: seq<byte>) | Nothing | FormatException | AssertionException | OverflowException

  datatype CreateResult = Created | Exists | CreateOverflow

  /** The source reads header fields without looking at the length: shorter blocks are out of its contract. */
  predicate Readable(block: Block) {
    |block| >= 2 && (if ReadFormat(block) == FORMAT_OLD then |block| >= OLD_HEADER_LENGTH else |block| >= HEADER_LENGTH)
  }

  function Violation(cfg: Config, k: Known): Known {
    if cfg.allowViolations then k else k.(violation := true)
  }

  function CheckHeader(cfg: Config, k: Known, b: BlockId, block: Block): (Known, HeaderVerdict)
    requires |block| >= HEADER_LENGTH
  {
    if ReadFormat(block) != FORMAT then (k, WrongFormat)
    else if ReadBlockId(block) != b then (Violation(cfg, k), Bad)
    else
      var (k1, verdict) := Check(k, ReadClient(block), b, ReadVersion(block));
      match verdict
      case Accepted => (k1, Good)
      case AssertionFailed => (k1, BadHeader)
      case _ => (Violation(cfg, k1), Bad)
  }

  /** Outcome of a load when the base store answers `answer`; `rewrite` is what is stored back, if anything. */
  datatype LoadOutcome = LoadOutcome(known: Known, result: LoadResult, rewrite: Option<Block>)

  function LoadAnswer(cfg: Config, k: Known, b: BlockId, answer: Option<Block>): LoadOutcome
    requires answer.Some? ==> Readable(answer.value)
  {
    match answer
    case None =>
      LoadOutcome(if cfg.missingIsViolation && ShouldExist(k, b) then Violation(cfg, k) else k, Nothing, None)
    case Some(block) =>
      if ReadFormat(block) == FORMAT_OLD then
        MigrateRoundTrip(b, block);
        LoadOld(cfg, k, b, Migrate(b, block))
      else
        var (k1, verdict) := CheckHeader(cfg, k, b, block);
        match verdict
        case WrongFormat => LoadOutcome(k1, FormatException, None)
        case BadHeader => LoadOutcome(k1, AssertionException, None)
        case Bad => LoadOutcome(k1, if cfg.allowViolations then Data(Remove(block)) else Nothing, None)
        case Good => LoadOutcome(k1, Data(Remove(block)), None)
  }

  /** A block in the old layout, already migrated, is checked and then stored again as a new version. */
  function LoadOld(cfg: Config, k: Known, b: BlockId, migrated: Block): LoadOutcome
    requires |migrated| >= HEADER_LENGTH
  {
    var (k1, verdict) := CheckHeader(cfg, k, b, migrated);
    match verdict
    case WrongFormat => LoadOutcome(k1, FormatException, None)
    case BadHeader => LoadOutcome(k1, AssertionException, None)
    case Bad => if cfg.allowViolations then StoreBack(k1, b, Remove(migrated)) else LoadOutcome(k1, Nothing, None)
    case Good => StoreBack(k1, b, Remove(migrated))
  }

  function StoreBack(k: Known, b: BlockId, data: seq<byte>): LoadOutcome {
    var (k1, v) := Increment(k, b);
    if v.None? then LoadOutcome(k1, OverflowException, None)
    else LoadOutcome(k1, Data(data), Some(Prepend(b, k.me, v.value, data)))
  }

  /** A load returns what the layer below answers without a header. */
  lemma {:induction false} LoadedLength(cfg: Config, k: Known, b: BlockId, block: Block)
    requires Readable(block)
    ensures var r := LoadAnswer(cfg, k, b, Some(block)).result;
      r.Data? ==> |r.data| == |block| - if ReadFormat(block) == FORMAT_OLD then OLD_HEADER_LENGTH else HEADER_LENGTH
  {
    if ReadFormat(block) == FORMAT_OLD {
      MigrateRoundTrip(b, block);
    }
  }

  /** The version is used up before the base store can refuse. */
  function CreateBlock(k: Known, base: Base, b: BlockId, data: seq<byte>): (Known, Base, CreateResult) {
    var (k1, v) := Increment(k, b);
    if v.None? then (k1, base, CreateOverflow)
    else if b in base then (k1, base, Exists)
    else (k1, base[b := Prepend(b, k.me, v.value, data)], Created)
  }

  function StoreBlock(k: Known, base: Base, b: BlockId, data: seq<byte>): (Known, Base, bool) {
    var (k1, v) := Increment(k, b);
    if v.None? then (k1, base, false) else (k1, base[b := Prepend(b, k.me, v.value, data)], true)
  }

  function Answer(base: Base, b: BlockId): Option<Block> {
    if b in base then Some(base[b]) else None
  }

  function LoadBase(base: Base, b: BlockId, rewrite: Option<Block>): Base {
    if rewrite.Some? then base[b := rewrite.value] else base
  }

  /** A creation answers, and stores, according to whether the block was there; only the version counter can stop it. */
  lemma {:induction false} CreateAnswersIff(k: Known, base: Base, b: BlockId, data: seq<byte>)
    ensures var (k', base', r) := CreateBlock(k, base, b, data);
      && (r == CreateOverflow <==> VersionOf(k, k.me, b) + 1 == U64_MAX)
      && (r != CreateOverflow ==> (r == Created <==> b !in base))
      && (if r == Created
          then b in base' && base' == base[b := base'[b]] && |base'[b]| >= HEADER_LENGTH
               && ReadBlockId(base'[b]) == b && ReadClient(base'[b]) == k.me && ReadVersion(base'[b]) == VersionOf(k', k.me, b)
               && Remove(base'[b]) == data
          else base' == base)
  {
    var v := Next(VersionOf(k, k.me, b));
    HeaderRoundTrip(b, k.me, v, data);
  }

  /** A store succeeds, whether or not the block was there, unless the version counter stops it. */
  lemma {:induction false} StoreAnswersIff(k: Known, base: Base, b: BlockId, data: seq<byte>)
    ensures var (k', base', ok) := StoreBlock(k, base, b, data);
      && (ok <==> VersionOf(k, k.me, b) + 1 != U64_MAX)
      && (if ok
          then b in base' && base' == base[b := base'[b]] && |base'[b]| >= HEADER_LENGTH
               && ReadBlockId(base'[b]) == b && ReadClient(base'[b]) == k.me && ReadVersion(base'[b]) == VersionOf(k', k.me, b)
               && Remove(base'[b]) == data
          else base' == base)
  {
    var v := Next(VersionOf(k, k.me, b));
    HeaderRoundTrip(b, k.me, v, data);
  }

  /** A missing block is nothing to load, and is a violation exactly if it should exist and that is checked. */
  lemma {:induction false} MissingReportedIff(cfg: Config, k: Known, b: BlockId)
    ensures var o := LoadAnswer(cfg, k, b, None);
      && o.result == Nothing && o.rewrite == None
      && o.known.me == k.me && o.known.versions == k.versions && o.known.last == k.last
      && (o.known.violation <==> k.violation || (!cfg.allowViolations && cfg.missingIsViolation && b in Existing(k)))
  {
  }

  /** The presented block in the current layout. */
  function Current(b: BlockId, block: Block): (r: Block)
    requires Readable(block)
    ensures |r| >= HEADER_LENGTH
  {
    if ReadFormat(block) == FORMAT_OLD then MigrateRoundTrip(b, block); Migrate(b, block) else block
  }

  /** The client and the version in a header can be checked at all. */
  predicate WellFormed(c: U32, v: U64) {
    c != DELETED && v > 0
  }

  /** The version is newer than the known one of its client, or the known one and the last update. */
  predicate UpToDate(k: Known, c: U32, b: BlockId, v: U64) {
    VersionOf(k, c, b) < v || (VersionOf(k, c, b) == v && LastOf(k, b) == c)
  }

  /**
   The result of loading a block that is there, for every block and every
   configuration: what is returned, when a violation is recorded, and what is
   stored back.
   */
  lemma {:induction false} LoadResultIs(cfg: Config, k: Known, b: BlockId, block: Block)
    requires Readable(block)
    ensures var o := LoadAnswer(cfg, k, b, Some(block));
      var cur := Current(b, block);
      var c, v := ReadClient(cur), ReadVersion(cur);
      var idOk := ReadBlockId(cur) == b;
      var good := idOk && UpToDate(k, c, b, v);
      var own := if good && c == k.me then v else VersionOf(k, k.me, b);
      var isOld := ReadFormat(block) == FORMAT_OLD;
      if ReadFormat(cur) != FORMAT then o == LoadOutcome(k, FormatException, None)
      else if idOk && !WellFormed(c, v) then o == LoadOutcome(k, AssertionException, None)
      else
        && (o.known.violation <==> k.violation || (!good && !cfg.allowViolations))
        && (if !good && !cfg.allowViolations then o.result == Nothing && o.rewrite == None
            else if isOld && own + 1 == U64_MAX then o.result == OverflowException && o.rewrite == None
            else o.result == Data(Remove(cur)) && o.rewrite == if isOld then Some(Prepend(b, k.me, Next(own), Remove(cur))) else None)
  {
    var cur := Current(b, block);
    var c, v := ReadClient(cur), ReadVersion(cur);
    var k1 := Check(k, c, b, v).0;
    AcceptedIff(k, c, b, v);
    CheckEffect(k, c, b, v, k.me, b);
    IncrementEffect(k, b, k.me, b);
    IncrementEffect(k1, b, k.me, b);
    if ReadFormat(block) == FORMAT_OLD {
      MigrateRoundTrip(b, block);
    }
  }

  /** A block of the old layout that is accepted is replaced in the base store, and loads from there as the same data. */
  lemma {:induction false} OldBlockReplaced(cfg: Config, k: Known, base: Base, b: BlockId)
    requires b in base && Readable(base[b]) && ReadFormat(base[b]) == FORMAT_OLD && k.me != DELETED
    requires LoadAnswer(cfg, k, b, Some(base[b])).result.Data?
    requires VersionOf(LoadAnswer(cfg, k, b, Some(base[b])).known, k.me, b) > 0
    ensures var o := LoadAnswer(cfg, k, b, Some(base[b]));
      var base' := LoadBase(base, b, o.rewrite);
      && b in base' && base' == base[b := base'[b]] && Readable(base'[b]) && ReadFormat(base'[b]) == FORMAT
      && var again := LoadAnswer(cfg, o.known, b, Some(base'[b]));
         again.result == o.result && LoadBase(base', b, again.rewrite) == base' && again.known.violation == o.known.violation
  {
    var block := base[b];
    var o := LoadAnswer(cfg, k, b, Some(block));
    MigrateRoundTrip(b, block);
    var cur := Migrate(b, block);
    var k1 := CheckHeader(cfg, k, b, cur).0;
    IncrementEffect(k1, b, k.me, b);
    var v := Next(VersionOf(k1, k.me, b));
    HeaderRoundTrip(b, k.me, v, Remove(cur));
    LoadResultIs(cfg, o.known, b, Prepend(b, k.me, v, Remove(cur)));
  }

  /** The loop of the base store with the callback's bookkeeping: visited ids are no longer missing. */
  method VisitAll(ids: set<BlockId>, expected: set<BlockId>) returns (visited: seq<BlockId>, missing: set<BlockId>)
    ensures multiset(visited) == multiset(ids)
    ensures missing == expected - ids
  {
    visited, missing := [], expected;
    var todo := ids;
    while todo != {}
      invariant todo <= ids
      invariant multiset(visited) + multiset(todo) == multiset(ids)
      invariant missing == expected - (ids - todo)
      decreases |todo|
    {
      var b :| b in todo;
      assert multiset(todo) == multiset(todo - {b}) + multiset{b};
      todo, visited, missing := todo - {b}, visited + [b], missing - {b};
    }
  }

  lemma {:induction false} NoneMissing(expected: set<BlockId>, ids: set<BlockId>)
    ensures expected - ids == {} <==> expected <= ids
  {
    if expected - ids == {} {
      forall b | b in expected ensures b in ids {
        assert b !in expected - ids;
      }
    }
  }

  class IntegrityBlockStore {
    const cfg: Config
    const known: KnownBlockVersions
    var base: Base

    constructor (cfg: Config, known: KnownBlockVersions, base: Base)
      ensures this.cfg == cfg && this.known == known && this.base == base
    {
      this.cfg, this.known, this.base := cfg, known, base;
    }

    method TryCreate(b: BlockId, data: seq<byte>) returns (r: CreateResult)
      modifies this, known
      ensures (known.State(), base, r) == CreateBlock(old(known.State()), old(base), b, data)
      ensures r == CreateOverflow <==> VersionOf(old(known.State()), known.me, b) + 1 == U64_MAX
      ensures r != CreateOverflow ==> (r == Created <==> b !in old(base))
    {
      CreateAnswersIff(known.State(), base, b, data);
      var v := known.IncrementVersion(b);
      if v.None? { return CreateOverflow; }
      var block := Prepend(b, known.me, v.value, data);
      if b in base { return Exists; }
      base := base[b := block];
      return Created;
    }

    method Store(b: BlockId, data: seq<byte>) returns (ok: bool)
      modifies this, known
      ensures (known.State(), base, ok) == StoreBlock(old(known.State()), old(base), b, data)
      ensures ok <==> VersionOf(old(known.State()), known.me, b) + 1 != U64_MAX
    {
      StoreAnswersIff(known.State(), base, b, data);
      var v := known.IncrementVersion(b);
      if v.None? { return false; }
      base := base[b := Prepend(b, known.me, v.value, data)];
      return true;
    }

    method RemoveBlock(b: BlockId) returns (existed: bool)
      modifies this, known
      ensures known.State() == MarkDeleted(old(known.State()), b)
      ensures base == old(base) - {b} && (existed <==> b in old(base))
    {
      known.MarkBlockAsDeleted(b);
      existed := b in base;
      base := base - {b};
    }

    method ReportViolation()
      modifies known
      ensures known.State() == Violation(cfg, old(known.State()))
    {
      if cfg.allowViolations { return; }
      known.violation := true;
    }

    method CheckBlockHeader(b: BlockId, block: Block) returns (r: HeaderVerdict)
      requires |block| >= HEADER_LENGTH
      modifies known
      ensures (known.State(), r) == CheckHeader(cfg, old(known.State()), b, block)
    {
      if ReadFormat(block) != FORMAT { return WrongFormat; }
      if ReadBlockId(block) != b {
        ReportViolation();
        return Bad;
      }
      var verdict := known.CheckAndUpdateVersion(ReadClient(block), b, ReadVersion(block));
      if verdict == AssertionFailed { return BadHeader; }
      if verdict != Accepted {
        ReportViolation();
        return Bad;
      }
      return Good;
    }

    method Load(b: BlockId) returns (r: LoadResult)
      requires b in base ==> Readable(base[b])
      modifies this, known
      ensures var o := LoadAnswer(cfg, old(known.State()), b, Answer(old(base), b));
        known.State() == o.known && r == o.result && base == LoadBase(old(base), b, o.rewrite)
      ensures b !in old(base) ==>
        r == Nothing && base == old(base)
        && (known.violation <==> old(known.violation) || (!cfg.allowViolations && cfg.missingIsViolation && b in Existing(old(known.State()))))
    {
      MissingReportedIff(cfg, known.State(), b);
      if b !in base {
        var expected := known.BlockShouldExist(b);
        if cfg.missingIsViolation && expected { ReportViolation(); }
        return Nothing;
      }
      var block := base[b];
      var old_format := ReadFormat(block) == FORMAT_OLD;
      if old_format {
        MigrateRoundTrip(b, block);
        block := Migrate(b, block);
      }
      var verdict := CheckBlockHeader(b, block);
      if verdict == WrongFormat { return FormatException; }
      if verdict == BadHeader { return AssertionException; }
      if verdict == Bad && !cfg.allowViolations { return Nothing; }
      if old_format {
        var ok := Store(b, Remove(block));
        if !ok { return OverflowException; }
      }
      return Data(Remove(block));
    }

    /** Visits every block once; with missing-block checking it reports exactly when an expected block is absent. */
    method ForEachBlock() returns (visited: seq<BlockId>, violated: bool)
      modifies known
      ensures multiset(visited) == multiset(base.Keys)
      ensures violated <==> cfg.missingIsViolation && !(Existing(old(known.State())) <= base.Keys)
      ensures known.State() == if violated then Violation(cfg, old(known.State())) else old(known.State())
    {
      var expected: set<BlockId> := {};
      if cfg.missingIsViolation {
        expected := known.ExistingBlocks();
      }
      var missing;
      visited, missing := VisitAll(base.Keys, expected);
      violated := missing != {};
      NoneMissing(expected, base.Keys);
      if violated {
        ReportViolation();
      }
    }
  }
}
