/**
 Migrating a store that was written without version numbers: every block gets a
 header in front.  The migration can be interrupted after any block and started
 again any number of times.
 */
module Migration {
  import opened Bytes
  import opened Runs
  import opened KnownVersions
  import opened BlockHeader
  import opened IntegrityStore
  import opened StateFile

  datatype State = State(known: Known, base: Base)

  datatype Event =
    | MigrateBlock(b: BlockId)                                  // the body of the loop, for an id the base store listed
    | Restart(vs: seq<VersionEntry>, ls: seq<LastEntry>)        // interrupted: state saved, and loaded by the next attempt
    | Load(b: BlockId, cfg: Config)                             // a load of a migrated block through the integrity layer

  /** `false` is the version-overflow exception. */
  function Migrated(k: Known, base: Base, b: BlockId): (Known, Base, bool)
    requires b in base ==> |base[b]| >= 2
  {
    if b !in base then (k, base, true)
    else if ReadFormat(base[b]) != 0 then (k, base, true)     // already migrated
    else
      var (k1, v) := Increment(k, b);
      if v.None? then (k1, base, false) else (k1, base[b := Prepend(b, k.me, v.value, base[b])], true)
  }

  /**
   The migration takes a block for migrated unless its first word is 0.  The
   integrity layer then gives the original bytes if and only if it was.
   */
  lemma {:induction false} MigratedLoadsIff(cfg: Config, k: Known, base: Base, b: BlockId)
    requires b in base && |base[b]| >= 2 && k.me != DELETED && VersionOf(k, k.me, b) + 1 < U64_MAX
    ensures var (k', base', ok) := Migrated(k, base, b);
      ok && b in base' && (Readable(base'[b]) ==> (LoadAnswer(cfg, k', b, Some(base'[b])).result == Data(base[b]) <==> ReadFormat(base[b]) == 0))
  {
    var (k', base', _) := Migrated(k, base, b);
    if ReadFormat(base[b]) == 0 {
      HeaderRoundTrip(b, k.me, VersionOf(k, k.me, b) + 1, base[b]);
      IncrementEffect(k, b, k.me, b);
      AcceptedIff(k', k.me, b, VersionOf(k, k.me, b) + 1);
    } else if Readable(base[b]) {
      LoadedLength(cfg, k', b, base[b]);
    }
  }

  /** The migration of a block fails only if it has to be wrapped and the version counter refuses; then nothing changes. */
  lemma {:induction false} MigrationThrowsIff(k: Known, base: Base, b: BlockId)
    requires b in base ==> |base[b]| >= 2
    ensures var (k', base', ok) := Migrated(k, base, b);
      && (!ok <==> b in base && ReadFormat(base[b]) == 0 && VersionOf(k, k.me, b) + 1 == U64_MAX)
      && (!ok ==> k' == k && base' == base)
  {
  }

  /** A block of the old store that starts with the word 2: it is skipped, and loading it throws. */
  lemma {:induction false} SkippedBlockIsLost(cfg: Config, k: Known, b: BlockId, rest: seq<byte>)
    requires |rest| >= 28
    ensures var base := map[b := [2, 0] + rest];
      |base[b]| >= 2 && Migrated(k, base, b) == (k, base, true)
      && Readable(base[b]) && LoadAnswer(cfg, k, b, Some(base[b])).result == FormatException
  {
    assert ([2, 0] + rest)[0..2] == [2, 0];
    assert [2, 0][1..] == [0];
  }

  /** What may be migrated: every block starts with format word 0 and no version is about to overflow. */
  ghost predicate Migratable(k0: Known, base0: Base) {
    && k0.me != DELETED
    && (forall b | b in base0 :: |base0[b]| >= 2 && ReadFormat(base0[b]) == 0)
    && (forall b | b in base0 :: VersionOf(k0, k0.me, b) + 1 < U64_MAX)
  }

  function Wrapped(k0: Known, base0: Base, b: BlockId): Block
    requires b in base0 && VersionOf(k0, k0.me, b) + 1 < U64_MAX
  {
    Prepend(b, k0.me, VersionOf(k0, k0.me, b) + 1, base0[b])
  }

  /** Exactly the blocks in `done` are wrapped, once each, with their version incremented once. */
  ghost predicate Progress(k0: Known, base0: Base, done: set<BlockId>, k: Known, base: Base)
    requires Migratable(k0, base0)
  {
    && base.Keys == base0.Keys && k.me == k0.me && k.violation == k0.violation
    && (forall b | b in base0 :: base[b] == if b in done then Wrapped(k0, base0, b) else base0[b])
    && (forall b :: VersionOf(k, k.me, b) == VersionOf(k0, k0.me, b) + if b in done && b in base0 then 1 else 0)
    && (forall b | b in done && b in base0 :: LastOf(k, b) == k0.me)
  }

  /** Wrapping a block that is not done yet. */
  lemma {:induction false} WrapStep(k0: Known, base0: Base, done: set<BlockId>, k: Known, base: Base, b: BlockId)
    requires Migratable(k0, base0) && Progress(k0, base0, done, k, base) && b in base0 && b !in done
    ensures Progress(k0, base0, done + {b}, Increment(k, b).0, base[b := Wrapped(k0, base0, b)])
  {
    var k1 := Increment(k, b).0;
    forall b' ensures VersionOf(k1, k1.me, b') == VersionOf(k0, k0.me, b') + if b' in done + {b} && b' in base0 then 1 else 0 {
      IncrementEffect(k, b, k.me, b');
    }
    forall b' | b' in done + {b} && b' in base0 ensures LastOf(k1, b') == k0.me {
      IncrementEffect(k, b, k.me, b');
    }
  }

  lemma {:induction false} ProgressStep(k0: Known, base0: Base, done: set<BlockId>, k: Known, base: Base, b: BlockId)
    requires Migratable(k0, base0) && Progress(k0, base0, done, k, base)
    ensures b in base ==> |base[b]| >= 2
    ensures var r := Migrated(k, base, b); r.2 && Progress(k0, base0, done + {b}, r.0, r.1)
  {
    if b in base0 && b !in done {
      WrapStep(k0, base0, done, k, base, b);
      assert Migrated(k, base, b) == (Increment(k, b).0, base[b := Wrapped(k0, base0, b)], true);
    } else {
      DoneAlready(k0, base0, done, k, base, b);
    }
  }

  /** Blocks that are wrapped, or not there, are skipped. */
  lemma {:induction false} DoneAlready(k0: Known, base0: Base, done: set<BlockId>, k: Known, base: Base, b: BlockId)
    requires Migratable(k0, base0) && Progress(k0, base0, done, k, base) && (b in done || b !in base0)
    ensures b in base ==> |base[b]| >= 2
    ensures Migrated(k, base, b) == (k, base, true) && Progress(k0, base0, done + {b}, k, base)
  {
  }

  /** The body of the loop. */
  method MigrateOne(known: KnownBlockVersions, base: Base, b: BlockId) returns (base': Base, ok: bool)
    requires b in base ==> |base[b]| >= 2
    modifies known
    ensures (known.State(), base', ok) == Migrated(old(known.State()), base, b)
  {
    if b !in base { return base, true; }
    if ReadFormat(base[b]) != 0 { return base, true; }
    var v := known.IncrementVersion(b);
    if v.None? { return base, false; }
    return base[b := Prepend(b, known.me, v.value, base[b])], true;
  }

  method MigrateNext(known: KnownBlockVersions, base: Base, b: BlockId, ghost k0: Known, ghost base0: Base, ghost done: set<BlockId>)
    returns (base': Base, ghost done': set<BlockId>)
    requires Migratable(k0, base0) && Progress(k0, base0, done, known.State(), base)
    modifies known
    ensures done' == done + {b} && Progress(k0, base0, done', known.State(), base')
  {
    ProgressStep(k0, base0, done, known.State(), base, b);
    var ok;
    base', ok := MigrateOne(known, base, b);
    done' := done + {b};
  }

  /** One attempt over the blocks of the base store, stopped by a signal after at most `limit` of them. */
  method MigrateSession(known: KnownBlockVersions, base: Base, limit: nat, ghost k0: Known, ghost base0: Base, ghost done: set<BlockId>)
    returns (base': Base, completed: bool, ghost done': set<BlockId>)
    requires Migratable(k0, base0) && Progress(k0, base0, done, known.State(), base)
    modifies known
    ensures Progress(k0, base0, done', known.State(), base') && done <= done'
    ensures completed ==> base0.Keys <= done'
    ensures |base| <= limit ==> completed
  {
    base', done', completed := base, done, true;
    var todo := base.Keys;
    var n := 0;
    while todo != {}
      invariant todo <= base.Keys && n + |todo| == |base|
      invariant Progress(k0, base0, done', known.State(), base')
      invariant done <= done' && base.Keys - todo <= done'
      decreases |todo|
    {
      if n == limit {
        completed := false;
        return;
      }
      var b :| b in todo;
      base', done' := MigrateNext(known, base', b, k0, base0, done');
      todo, n := todo - {b}, n + 1;
    }
  }

  // ---------- every run, however often interrupted ----------

  predicate Enabled(s: State, e: Event) {
    match e
    case MigrateBlock(b) => b in s.base ==> |s.base[b]| >= 2
    case Restart(vs, ls) =>
      ListsVersions(vs, s.known.versions) && ListsLasts(ls, s.known.last) && |vs| <= U64_MAX && |ls| <= U64_MAX
    case Load(b, _) => b in s.base && Readable(s.base[b]) && ReadFormat(s.base[b]) == FORMAT
  }

  function Apply(s: State, e: Event): State {
    match e
    case MigrateBlock(b) =>
      if b in s.base && |s.base[b]| < 2 then s else var r := Migrated(s.known, s.base, b); State(r.0, r.1)
    case Restart(vs, ls) =>
      var file := LoadFile(s.known.me, Some(EncodeFile(s.known.violation, vs, ls)));
      if file.Loaded? then s.(known := file.known) else s
    case Load(b, cfg) =>
      if b !in s.base || !Readable(s.base[b]) then s
      else var o := LoadAnswer(cfg, s.known, b, Some(s.base[b])); State(o.known, LoadBase(s.base, b, o.rewrite))
  }

  function M(k0: Known, base0: Base): Machine<State, Event> {
    Machine(State(k0, base0), (s, e) => Enabled(s, e), (s, e) => Apply(s, e))
  }

  /** The ids that have been processed so far. */
  function Processed(es: seq<Event>): set<BlockId> {
    if es == [] then {}
    else Processed(es[..|es| - 1]) + if es[|es| - 1].MigrateBlock? then {es[|es| - 1].b} else {}
  }

  lemma {:induction false} ProgressAlong(k0: Known, base0: Base, ss: seq<State>, es: seq<Event>, n: nat)
    requires Migratable(k0, base0) && IsRun(M(k0, base0), ss, es) && n < |ss|
    ensures Progress(k0, base0, Processed(es[..n]), ss[n].known, ss[n].base)
  {
    if n > 0 {
      ProgressAlong(k0, base0, ss, es, n - 1);
      assert StepAt(M(k0, base0), ss, es, n - 1);
      var s, e := ss[n - 1], es[n - 1];
      assert es[..n][..n - 1] == es[..n - 1];
      match e {
        case MigrateBlock(b) => ProgressStep(k0, base0, Processed(es[..n - 1]), s.known, s.base, b);
        case Restart(vs, ls) => FileRoundTrip(s.known, vs, ls);
        case Load(b, cfg) => WrappedLoads(k0, base0, Processed(es[..n - 1]), s.known, s.base, b, cfg);
      }
    }
  }

  /** Presenting a wrapped block again changes nothing. */
  lemma {:induction false} SeenAgain(k0: Known, base0: Base, done: set<BlockId>, k: Known, base: Base, b: BlockId)
    requires Migratable(k0, base0) && Progress(k0, base0, done, k, base) && b in base0 && b in done
    ensures var r := Check(k, k0.me, b, VersionOf(k0, k0.me, b) + 1);
      r.1 == Accepted && Progress(k0, base0, done, r.0, base)
  {
  }

  lemma {:induction false} WrappedLoads(k0: Known, base0: Base, done: set<BlockId>, k: Known, base: Base, b: BlockId, cfg: Config)
    requires Migratable(k0, base0) && Progress(k0, base0, done, k, base) && b in base0 && b in done
    ensures Readable(Wrapped(k0, base0, b))
    ensures var o := LoadAnswer(cfg, k, b, Some(Wrapped(k0, base0, b)));
      o.result == Data(base0[b]) && o.rewrite == None && Progress(k0, base0, done, o.known, base)
  {
    HeaderRoundTrip(b, k0.me, VersionOf(k0, k0.me, b) + 1, base0[b]);
    SeenAgain(k0, base0, done, k, base, b);
  }

  /** At any point of a run, whatever was interrupted, loaded or restarted before, a load gives the original bytes. */
  lemma {:induction false} LoadsOriginal(k0: Known, base0: Base, ss: seq<State>, es: seq<Event>, n: nat, b: BlockId, cfg: Config)
    requires Migratable(k0, base0) && IsRun(M(k0, base0), ss, es) && n < |es| && es[n] == Load(b, cfg)
    ensures b in base0 && b in ss[n].base && Readable(ss[n].base[b])
    ensures var o := LoadAnswer(cfg, ss[n].known, b, Some(ss[n].base[b])); o.result == Data(base0[b]) && o.rewrite == None
  {
    ProgressAlong(k0, base0, ss, es, n);
    assert StepAt(M(k0, base0), ss, es, n);
    WrappedLoads(k0, base0, Processed(es[..n]), ss[n].known, ss[n].base, b, cfg);
  }

  /**
   Resumability: after any interleaving of partial attempts, restarts and loads
   that has processed every block at least once, each block is wrapped exactly
   once, its version has grown by exactly one, and it can be loaded.
   */
  lemma {:induction false} MigrationResumable(k0: Known, base0: Base, ss: seq<State>, es: seq<Event>, n: nat, b: BlockId, cfg: Config)
    requires Migratable(k0, base0) && IsRun(M(k0, base0), ss, es) && n < |ss|
    requires base0.Keys <= Processed(es[..n]) && b in base0
    ensures b in ss[n].base && ss[n].base[b] == Wrapped(k0, base0, b) && Enabled(ss[n], Load(b, cfg))
    ensures VersionOf(ss[n].known, k0.me, b) == VersionOf(k0, k0.me, b) + 1
    ensures LoadAnswer(cfg, ss[n].known, b, Some(ss[n].base[b])).result == Data(base0[b])
  {
    ProgressAlong(k0, base0, ss, es, n);
    HeaderRoundTrip(b, k0.me, VersionOf(k0, k0.me, b) + 1, base0[b]);
    WrappedLoads(k0, base0, Processed(es[..n]), ss[n].known, ss[n].base, b, cfg);
  }
}
