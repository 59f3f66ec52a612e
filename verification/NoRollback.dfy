/**
 One client against an arbitrary base store.  The base store is not part of the
 state: whatever it presents is in the label of the load, so a run covers every
 store that renames, replays, deletes or invents blocks.
 */
module NoRollback {
  import opened Bytes
  import opened Runs
  import opened KnownVersions
  import opened BlockHeader
  import opened IntegrityStore
  import opened StateFile

  datatype Event =
    | Create(b: BlockId, data: seq<byte>)
    | Store(b: BlockId, data: seq<byte>)
    | Remove(b: BlockId)
    | Load(b: BlockId, answer: Option<Block>)
    | Restart(vs: seq<VersionEntry>, ls: seq<LastEntry>)    // save the state file in this order and load it again

  predicate Presents(b: BlockId, block: Block, c: U32, v: U64) {
    Readable(block) && ReadClient(Current(b, block)) == c && ReadVersion(Current(b, block)) == v
  }

  /** The one assumption on presented headers: the client's own id never comes with version 2^64-1. */
  predicate Enabled(k: Known, e: Event) {
    match e
    case Load(b, Some(block)) => Readable(block) && !Presents(b, block, k.me, U64_MAX)
    case Restart(vs, ls) => ListsVersions(vs, k.versions) && ListsLasts(ls, k.last) && |vs| <= U64_MAX && |ls| <= U64_MAX
    case _ => true
  }

  function Apply(cfg: Config, k: Known, e: Event): Known {
    match e
    case Create(b, _) => Increment(k, b).0
    case Store(b, _) => Increment(k, b).0
    case Remove(b) => MarkDeleted(k, b)
    case Load(b, answer) => if answer.Some? && !Readable(answer.value) then k else LoadAnswer(cfg, k, b, answer).known
    case Restart(vs, ls) =>
      var file := LoadFile(k.me, Some(EncodeFile(k.violation, vs, ls)));
      if file.Loaded? then file.known else Known(k.me, false, map[], map[])
  }

  function M(cfg: Config, k0: Known): Machine<Known, Event> {
    Machine(k0, (k, e) => Enabled(k, e), (k, e) => Apply(cfg, k, e))
  }

  /** The client's own versions are not at the wrap-around. */
  ghost predicate Sane(k: Known) {
    k.me != DELETED && forall b :: VersionOf(k, k.me, b) < U64_MAX
  }

  /** The event makes the client accept, or write, version `v` of client `c` for block `b`. */
  predicate Learns(cfg: Config, k: Known, e: Event, b: BlockId, c: U32, v: U64) {
    match e
    case Create(b', _) => b' == b && c == k.me && Increment(k, b).1 == Some(v)
    case Store(b', _) => b' == b && c == k.me && Increment(k, b).1 == Some(v)
    case Load(b', Some(block)) =>
      && b' == b && Readable(block)
      && CheckHeader(cfg, k, b, Current(b, block)).1 == Good
      && ((ReadClient(Current(b, block)) == c && ReadVersion(Current(b, block)) == v)
          || (ReadFormat(block) == FORMAT_OLD && c == k.me && VersionOf(Apply(cfg, k, e), k.me, b) == v
              && LoadAnswer(cfg, k, b, Some(block)).rewrite.Some?))
    case _ => false
  }

  /** The event replaces what the client last knew of block `b`, other than by an update of `c` itself. */
  ghost predicate Supersedes(cfg: Config, k: Known, e: Event, b: BlockId, c: U32) {
    e == Remove(b) || exists c', v :: c' != c && Learns(cfg, k, e, b, c', v)
  }

  /** Every presentation of `(c, at most v)` for block `b` will be rejected. */
  predicate Barred(k: Known, b: BlockId, c: U32, v: U64) {
    VersionOf(k, c, b) > v || (VersionOf(k, c, b) == v && LastOf(k, b) != c)
  }

  /** Save and reload change nothing. */
  lemma {:induction false} RestartIsIdentity(cfg: Config, k: Known, e: Event)
    requires e.Restart? && Enabled(k, e)
    ensures Apply(cfg, k, e) == k
  {
    FileRoundTrip(k, e.vs, e.ls);
  }

  /** The outcome of a load whose header is not accepted: no data and nothing written back. */
  predicate Refused(b: BlockId, block: Block, o: LoadOutcome)
    requires Readable(block)
  {
    var cur := Current(b, block);
    && o.rewrite.None?
    && if ReadFormat(cur) != FORMAT then o.result == FormatException
       else if ReadBlockId(cur) == b && (ReadClient(cur) == DELETED || ReadVersion(cur) == 0) then o.result == AssertionException
       else o.result == Nothing && o.known.violation
  }

  /**
   What a load does to the known versions: a check, then an increment if a block
   of the old layout is stored back.  A header that is not accepted is refused
   unless the store was told to allow violations.
   */
  lemma {:induction false} LoadEffect(cfg: Config, k: Known, b: BlockId, block: Block)
    requires Readable(block)
    ensures var o := LoadAnswer(cfg, k, b, Some(block));
      var cur := Current(b, block);
      var (k1, verdict) := Check(k, ReadClient(cur), b, ReadVersion(cur));
      if CheckHeader(cfg, k, b, cur).1 == Good
      then verdict == Accepted && o.known == if ReadFormat(block) == FORMAT_OLD then Increment(k1, b).0 else k1
      else
        && (ReadFormat(cur) == FORMAT && ReadBlockId(cur) == b ==> verdict != Accepted)
        && (if o.rewrite.Some? then cfg.allowViolations && (o.known == Increment(k, b).0 || o.known == Increment(k1, b).0)
            else o.known in {k, Violation(cfg, k), k1, Violation(cfg, k1)})
        && (!cfg.allowViolations ==> Refused(b, block, o))
  {
  }

  /** No event makes a known version smaller, and the client's own stay away from the wrap-around. */
  lemma {:induction false} VersionsGrow(cfg: Config, k: Known, e: Event, c: U32, b: BlockId)
    requires Sane(k) && Enabled(k, e)
    ensures VersionOf(Apply(cfg, k, e), c, b) >= VersionOf(k, c, b)
    ensures Apply(cfg, k, e).me == k.me && VersionOf(Apply(cfg, k, e), k.me, b) < U64_MAX
  {
    assert VersionOf(k, k.me, b) < U64_MAX;
    match e
    case Create(b', _) => IncrementEffect(k, b', c, b); IncrementEffect(k, b', k.me, b);
    case Store(b', _) => IncrementEffect(k, b', c, b); IncrementEffect(k, b', k.me, b);
    case Remove(b') => MarkDeletedEffect(k, b', c, b); MarkDeletedEffect(k, b', k.me, b);
    case Restart(_, _) => RestartIsIdentity(cfg, k, e);
    case Load(b', answer) =>
      if answer.Some? {
        LoadVersionsGrow(cfg, k, b', answer.value, c, b);
        LoadVersionsGrow(cfg, k, b', answer.value, k.me, b);
      }
  }

  lemma {:induction false} LoadVersionsGrow(cfg: Config, k: Known, b': BlockId, block: Block, c: U32, b: BlockId)
    requires Sane(k) && Enabled(k, Load(b', Some(block)))
    ensures var t := LoadAnswer(cfg, k, b', Some(block)).known;
      t.me == k.me && VersionOf(t, c, b) >= VersionOf(k, c, b) && (c == k.me ==> VersionOf(t, c, b) < U64_MAX)
  {
    var cur := Current(b', block);
    var k1 := Check(k, ReadClient(cur), b', ReadVersion(cur)).0;
    LoadEffect(cfg, k, b', block);
    CheckEffect(k, ReadClient(cur), b', ReadVersion(cur), c, b);
    CheckEffect(k, ReadClient(cur), b', ReadVersion(cur), k.me, b');
    IncrementEffect(k1, b', c, b);
  }

  lemma {:induction false} SaneKept(cfg: Config, k: Known, e: Event)
    requires Sane(k) && Enabled(k, e)
    ensures Sane(Apply(cfg, k, e)) && Apply(cfg, k, e).me == k.me
  {
    var k' := Apply(cfg, k, e);
    forall b ensures VersionOf(k', k'.me, b) < U64_MAX {
      VersionsGrow(cfg, k, e, k.me, b);
    }
    VersionsGrow(cfg, k, e, k.me, seq(16, i => 0));
  }

  lemma {:induction false} LearnRecorded(cfg: Config, k: Known, e: Event, b: BlockId, c: U32, v: U64)
    requires Sane(k) && Enabled(k, e) && Learns(cfg, k, e, b, c, v)
    ensures c != DELETED && VersionOf(Apply(cfg, k, e), c, b) >= v
    ensures LastOf(Apply(cfg, k, e), b) == c || LastOf(Apply(cfg, k, e), b) == k.me
  {
    if e.Load? {
      var cur := Current(b, e.answer.value);
      var k1 := Check(k, ReadClient(cur), b, ReadVersion(cur)).0;
      LoadEffect(cfg, k, b, e.answer.value);
      CheckEffect(k, ReadClient(cur), b, ReadVersion(cur), c, b);
      CheckEffect(k, ReadClient(cur), b, ReadVersion(cur), k.me, b);
      IncrementEffect(k1, b, c, b);
    } else {
      IncrementEffect(k, b, c, b);
    }
  }

  /** Once barred, always barred. */
  lemma {:induction false} BarredKept(cfg: Config, k: Known, e: Event, b: BlockId, c: U32, v: U64)
    requires Sane(k) && Enabled(k, e) && c != DELETED && Barred(k, b, c, v)
    ensures Barred(Apply(cfg, k, e), b, c, v)
  {
    VersionsGrow(cfg, k, e, c, b);
    match e
    case Create(b', _) => IncrementEffect(k, b', c, b);
    case Store(b', _) => IncrementEffect(k, b', c, b);
    case Remove(b') => MarkDeletedEffect(k, b', c, b);
    case Restart(_, _) => RestartIsIdentity(cfg, k, e);
    case Load(b', answer) =>
      if answer.Some? {
        LoadKeepsBarred(cfg, k, b', answer.value, b, c, v);
      }
  }

  lemma {:induction false} LoadKeepsBarred(cfg: Config, k: Known, b': BlockId, block: Block, b: BlockId, c: U32, v: U64)
    requires Sane(k) && Enabled(k, Load(b', Some(block))) && c != DELETED && Barred(k, b, c, v)
    ensures Barred(LoadAnswer(cfg, k, b', Some(block)).known, b, c, v)
  {
    var cur := Current(b', block);
    var k1 := Check(k, ReadClient(cur), b', ReadVersion(cur)).0;
    LoadEffect(cfg, k, b', block);
    CheckEffect(k, ReadClient(cur), b', ReadVersion(cur), c, b);
    CheckEffect(k, ReadClient(cur), b', ReadVersion(cur), k.me, b');
    AcceptedIff(k, ReadClient(cur), b', ReadVersion(cur));
    IncrementEffect(k1, b', c, b);
  }

  /** A superseded version is barred from then on. */
  lemma {:induction false} SupersededIsBarred(cfg: Config, k: Known, e: Event, b: BlockId, c: U32, v: U64)
    requires Sane(k) && Enabled(k, e) && c != DELETED
    requires VersionOf(k, c, b) >= v && Supersedes(cfg, k, e, b, c)
    ensures Barred(Apply(cfg, k, e), b, c, v)
  {
    VersionsGrow(cfg, k, e, c, b);
    if e != Remove(b) {
      var c', v' :| c' != c && Learns(cfg, k, e, b, c', v');
      if e.Load? {
        LoadSupersedes(cfg, k, e.answer.value, b, c, v, c', v');
      } else {
        IncrementEffect(k, b, c, b);
      }
    }
  }

  lemma {:induction false} LoadSupersedes(cfg: Config, k: Known, block: Block, b: BlockId, c: U32, v: U64, c': U32, v': U64)
    requires Sane(k) && Enabled(k, Load(b, Some(block))) && c != DELETED
    requires VersionOf(k, c, b) >= v && c' != c && Learns(cfg, k, Load(b, Some(block)), b, c', v')
    ensures Barred(LoadAnswer(cfg, k, b, Some(block)).known, b, c, v)
  {
    var cur := Current(b, block);
    var k1 := Check(k, ReadClient(cur), b, ReadVersion(cur)).0;
    LoadEffect(cfg, k, b, block);
    CheckEffect(k, ReadClient(cur), b, ReadVersion(cur), c, b);
    CheckEffect(k, ReadClient(cur), b, ReadVersion(cur), k.me, b);
    IncrementEffect(k1, b, c, b);
  }

  /** A load that accepts another client's version and stores the block back bars that version. */
  lemma {:induction false} SupersededAtOnce(cfg: Config, k: Known, e: Event, b: BlockId, c: U32, v: U64)
    requires Sane(k) && Enabled(k, e) && c != k.me && Learns(cfg, k, e, b, c, v) && Supersedes(cfg, k, e, b, c)
    ensures Barred(Apply(cfg, k, e), b, c, v)
  {
    var cur := Current(b, e.answer.value);
    var k1 := Check(k, c, b, v).0;
    LoadEffect(cfg, k, b, e.answer.value);
    CheckEffect(k, c, b, v, c, b);
    CheckEffect(k, c, b, v, k.me, b);
    IncrementEffect(k1, b, c, b);
  }

  /** A barred version yields no data, is not written back, and is reported unless the header itself is malformed. */
  lemma {:induction false} BarredIsRefused(cfg: Config, k: Known, b: BlockId, block: Block, c: U32, v: U64, w: U64)
    requires !cfg.allowViolations && Barred(k, b, c, v) && w <= v && Presents(b, block, c, w)
    ensures Refused(b, block, LoadAnswer(cfg, k, b, Some(block)))
  {
  }

  // ---------- main results, over every run ----------

  lemma {:induction false} SaneThroughout(cfg: Config, k0: Known, ks: seq<Known>, es: seq<Event>, i: nat)
    requires IsRun(M(cfg, k0), ks, es) && Sane(k0) && i < |ks|
    ensures Sane(ks[i]) && ks[i].me == k0.me
  {
    forall k, e | Sane(k) && k.me == k0.me && Enabled(k, e) ensures Sane(Apply(cfg, k, e)) && Apply(cfg, k, e).me == k0.me {
      SaneKept(cfg, k, e);
    }
    Kept(M(cfg, k0), ks, es, k => Sane(k) && k.me == k0.me, e => true, 0, i);
  }

  /** Known versions never decrease over a run, whatever the base store presents. */
  lemma {:induction false} KnownVersionsMonotone(cfg: Config, k0: Known, ks: seq<Known>, es: seq<Event>, i: nat, j: nat, c: U32, b: BlockId)
    requires IsRun(M(cfg, k0), ks, es) && Sane(k0) && i <= j < |ks|
    ensures VersionOf(ks[i], c, b) <= VersionOf(ks[j], c, b)
  {
    var n := VersionOf(ks[i], c, b);
    SaneThroughout(cfg, k0, ks, es, i);
    forall k, e | Sane(k) && VersionOf(k, c, b) >= n && Enabled(k, e)
      ensures Sane(Apply(cfg, k, e)) && VersionOf(Apply(cfg, k, e), c, b) >= n
    {
      SaneKept(cfg, k, e);
      VersionsGrow(cfg, k, e, c, b);
    }
    Kept(M(cfg, k0), ks, es, k => Sane(k) && VersionOf(k, c, b) >= n, e => true, i, j);
  }

  /** A barred version stays barred, so presenting it at any later point of the run is refused. */
  lemma {:induction false} BarredNeverReturns(
    cfg: Config, k0: Known, ks: seq<Known>, es: seq<Event>, j: nat, n: nat, b: BlockId, c: U32, v: U64, block: Block, w: U64)
    requires IsRun(M(cfg, k0), ks, es) && Sane(k0) && !cfg.allowViolations && c != DELETED
    requires j <= n < |es| && Barred(ks[j], b, c, v)
    requires es[n] == Load(b, Some(block)) && Presents(b, block, c, w) && w <= v
    ensures Refused(b, block, LoadAnswer(cfg, ks[n], b, Some(block)))
  {
    SaneThroughout(cfg, k0, ks, es, j);
    forall k, e | Sane(k) && Barred(k, b, c, v) && Enabled(k, e) ensures Sane(Apply(cfg, k, e)) && Barred(Apply(cfg, k, e), b, c, v) {
      SaneKept(cfg, k, e);
      BarredKept(cfg, k, e, b, c, v);
    }
    Kept(M(cfg, k0), ks, es, k => Sane(k) && Barred(k, b, c, v), e => true, j, n);
    BarredIsRefused(cfg, ks[n], b, block, c, v, w);
  }

  /**
   No rollback to an older version: once the client has accepted or written
   version `v` of client `c` for a block (event i), a later load (event n) that
   is presented an older version of client `c` is refused.
   */
  lemma {:induction false} OlderNeverReturns(
    cfg: Config, k0: Known, ks: seq<Known>, es: seq<Event>, i: nat, n: nat, b: BlockId, c: U32, v: U64, block: Block, w: U64)
    requires IsRun(M(cfg, k0), ks, es) && Sane(k0) && !cfg.allowViolations
    requires i < n < |es| && Learns(cfg, ks[i], es[i], b, c, v)
    requires es[n] == Load(b, Some(block)) && Presents(b, block, c, w) && w < v
    ensures Refused(b, block, LoadAnswer(cfg, ks[n], b, Some(block)))
  {
    SaneThroughout(cfg, k0, ks, es, i);
    assert StepAt(M(cfg, k0), ks, es, i);
    LearnRecorded(cfg, ks[i], es[i], b, c, v);
    BarredNeverReturns(cfg, k0, ks, es, i + 1, n, b, c, w, block, w);
  }

  /**
   No rollback to a superseded version: once the client has accepted or written
   version `v` of client `c` for a block (event i) and has then seen it
   superseded by another client or deleted the block (event j), a later load
   (event n) that is presented version `v` or older of client `c` is refused,
   however many other events and restarts lie between.  Both can be the same
   event: a load that accepts another client's block in the old layout stores it
   back as a version of its own.
   */
  lemma {:induction false} SupersededNeverReturns(
    cfg: Config, k0: Known, ks: seq<Known>, es: seq<Event>, i: nat, j: nat, n: nat,
    b: BlockId, c: U32, v: U64, block: Block, w: U64)
    requires IsRun(M(cfg, k0), ks, es) && Sane(k0) && !cfg.allowViolations
    requires (i < j || (i == j && c != k0.me)) && j < n < |es|
    requires Learns(cfg, ks[i], es[i], b, c, v) && Supersedes(cfg, ks[j], es[j], b, c)
    requires es[n] == Load(b, Some(block)) && Presents(b, block, c, w) && w <= v
    ensures Refused(b, block, LoadAnswer(cfg, ks[n], b, Some(block)))
  {
    SaneThroughout(cfg, k0, ks, es, i);
    SaneThroughout(cfg, k0, ks, es, j);
    assert StepAt(M(cfg, k0), ks, es, i) && StepAt(M(cfg, k0), ks, es, j);
    LearnRecorded(cfg, ks[i], es[i], b, c, v);
    if i < j {
      KnownVersionsMonotone(cfg, k0, ks, es, i + 1, j, c, b);
      SupersededIsBarred(cfg, ks[j], es[j], b, c, v);
    } else {
      SupersededAtOnce(cfg, ks[i], es[i], b, c, v);
    }
    BarredNeverReturns(cfg, k0, ks, es, j + 1, n, b, c, v, block, w);
  }

  // ---------- missing blocks ----------

  /** Only its deletion makes a client stop expecting a block. */
  lemma {:induction false} ExpectationKept(cfg: Config, k: Known, e: Event, b: BlockId)
    requires Sane(k) && Enabled(k, e) && e != Remove(b) && b in Existing(k)
    ensures b in Existing(Apply(cfg, k, e))
  {
    ExistingIff(k, b);
    ExistingIff(Apply(cfg, k, e), b);
    match e
    case Create(b', _) => IncrementEffect(k, b', k.me, b);
    case Store(b', _) => IncrementEffect(k, b', k.me, b);
    case Remove(b') => MarkDeletedEffect(k, b', k.me, b);
    case Restart(_, _) => RestartIsIdentity(cfg, k, e);
    case Load(b', answer) =>
      if answer.Some? {
        LoadKeepsExpectation(cfg, k, b', answer.value, b);
      } else {
        MissingReportedIff(cfg, k, b');
      }
  }

  lemma {:induction false} LoadKeepsExpectation(cfg: Config, k: Known, b': BlockId, block: Block, b: BlockId)
    requires Sane(k) && Readable(block) && LastOf(k, b) != DELETED
    ensures LastOf(LoadAnswer(cfg, k, b', Some(block)).known, b) != DELETED
  {
    var cur := Current(b', block);
    var k1 := Check(k, ReadClient(cur), b', ReadVersion(cur)).0;
    LoadEffect(cfg, k, b', block);
    AcceptedIff(k, ReadClient(cur), b', ReadVersion(cur));
    CheckEffect(k, ReadClient(cur), b', ReadVersion(cur), k.me, b);
    IncrementEffect(k, b', k.me, b);
    IncrementEffect(k1, b', k.me, b);
  }

  /** After a deletion only accepting or writing the block makes the client expect it again. */
  lemma {:induction false} AbsenceKept(cfg: Config, k: Known, e: Event, b: BlockId)
    requires Sane(k) && Enabled(k, e) && !cfg.allowViolations && b !in Existing(k)
    requires forall c, v :: !Learns(cfg, k, e, b, c, v)
    ensures b !in Existing(Apply(cfg, k, e))
  {
    ExistingIff(k, b);
    ExistingIff(Apply(cfg, k, e), b);
    match e
    case Create(b', _) => IncrementEffect(k, b', k.me, b); WriteLearns(cfg, k, e, b');
    case Store(b', _) => IncrementEffect(k, b', k.me, b); WriteLearns(cfg, k, e, b');
    case Remove(b') => MarkDeletedEffect(k, b', k.me, b);
    case Restart(_, _) => RestartIsIdentity(cfg, k, e);
    case Load(b', answer) =>
      if answer.Some? {
        LoadKeepsAbsence(cfg, k, b', answer.value, b);
      } else {
        MissingReportedIff(cfg, k, b');
      }
  }

  lemma {:induction false} WriteLearns(cfg: Config, k: Known, e: Event, b: BlockId)
    requires (e.Create? || e.Store?) && e.b == b
    ensures Increment(k, b).1 == None || Learns(cfg, k, e, b, k.me, Increment(k, b).1.value)
  {
  }

  lemma {:induction false} LoadKeepsAbsence(cfg: Config, k: Known, b': BlockId, block: Block, b: BlockId)
    requires Sane(k) && Readable(block) && !cfg.allowViolations && LastOf(k, b) == DELETED
    requires forall c, v :: !Learns(cfg, k, Load(b', Some(block)), b, c, v)
    ensures LastOf(LoadAnswer(cfg, k, b', Some(block)).known, b) == DELETED
  {
    var cur := Current(b', block);
    var k1 := Check(k, ReadClient(cur), b', ReadVersion(cur)).0;
    LoadEffect(cfg, k, b', block);
    CheckEffect(k, ReadClient(cur), b', ReadVersion(cur), k.me, b);
    IncrementEffect(k1, b', k.me, b);
    assert b' == b ==> !Learns(cfg, k, Load(b', Some(block)), b, ReadClient(cur), ReadVersion(cur));
    LoadResultIs(cfg, k, b', block);
    AcceptedIff(k, ReadClient(cur), b', ReadVersion(cur));
  }

  /**
   A block that was accepted or written (event i) and not deleted since is
   missed: when the base store has none (event n), a violation is recorded.
   */
  lemma {:induction false} MissingIsNoticed(
    cfg: Config, k0: Known, ks: seq<Known>, es: seq<Event>, i: nat, n: nat, b: BlockId, c: U32, v: U64)
    requires IsRun(M(cfg, k0), ks, es) && Sane(k0) && !cfg.allowViolations && cfg.missingIsViolation
    requires i < n < |es| && Learns(cfg, ks[i], es[i], b, c, v) && es[n] == Load(b, None)
    requires forall m | i < m < n :: es[m] != Remove(b)
    ensures LoadAnswer(cfg, ks[n], b, None).result == Nothing && ks[n + 1].violation
  {
    SaneThroughout(cfg, k0, ks, es, i);
    SaneThroughout(cfg, k0, ks, es, i + 1);
    assert StepAt(M(cfg, k0), ks, es, i) && StepAt(M(cfg, k0), ks, es, n);
    LearnRecorded(cfg, ks[i], es[i], b, c, v);
    ExistingIff(ks[i + 1], b);
    forall k, e | Sane(k) && b in Existing(k) && e != Remove(b) && Enabled(k, e) ensures Sane(Apply(cfg, k, e)) && b in Existing(Apply(cfg, k, e)) {
      SaneKept(cfg, k, e);
      ExpectationKept(cfg, k, e, b);
    }
    Kept(M(cfg, k0), ks, es, k => Sane(k) && b in Existing(k), e => e != Remove(b), i + 1, n);
    MissingReportedIff(cfg, ks[n], b);
  }

  /** A block that was deleted (event i) and neither accepted nor written since is not missed. */
  lemma {:induction false} DeletedIsNotMissed(cfg: Config, k0: Known, ks: seq<Known>, es: seq<Event>, i: nat, n: nat, b: BlockId)
    requires IsRun(M(cfg, k0), ks, es) && Sane(k0) && i < n < |es| && es[i] == Remove(b) && es[n] == Load(b, None)
    requires forall m, c, v | i < m < n :: !Learns(cfg, ks[m], es[m], b, c, v)
    ensures ks[n + 1] == ks[n]
  {
    assert StepAt(M(cfg, k0), ks, es, n);
    MissingReportedIff(cfg, ks[n], b);
    if !cfg.allowViolations {
      StaysAbsent(cfg, k0, ks, es, i, n, b);
    }
  }

  lemma {:induction false} StaysAbsent(cfg: Config, k0: Known, ks: seq<Known>, es: seq<Event>, i: nat, n: nat, b: BlockId)
    requires IsRun(M(cfg, k0), ks, es) && Sane(k0) && !cfg.allowViolations && i < n < |ks| && es[i] == Remove(b)
    requires forall m, c, v | i < m < n :: !Learns(cfg, ks[m], es[m], b, c, v)
    ensures b !in Existing(ks[n])
    decreases n
  {
    assert StepAt(M(cfg, k0), ks, es, n - 1);
    SaneThroughout(cfg, k0, ks, es, n - 1);
    if i < n - 1 {
      StaysAbsent(cfg, k0, ks, es, i, n - 1, b);
      AbsenceKept(cfg, ks[n - 1], es[n - 1], b);
    } else {
      MarkDeletedEffect(ks[i], b, k0.me, b);
      ExistingIff(ks[n], b);
    }
  }
}
