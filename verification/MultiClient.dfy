/**
 Any number of honest clients on one base store.  Clients join with an empty
 memory, create blocks under fresh ids, store, remove, load and restart; every
 operation is one step.  With missing-block checking on, only one client may join.
 */
module MultiClient {
  import opened Bytes
  import opened Runs
  import opened KnownVersions
  import opened BlockHeader
  import opened IntegrityStore
  import opened StateFile

  datatype World = World(base: Base, clients: map<U32, Known>)

  datatype Step =
    | Join(c: U32)
    | Create(c: U32, b: BlockId, data: seq<byte>)
    | Store(c: U32, b: BlockId, data: seq<byte>)
    | Delete(c: U32, b: BlockId)
    | Load(c: U32, b: BlockId)
    | Restart(c: U32, vs: seq<VersionEntry>, ls: seq<LastEntry>)

  function Cfg(missing: bool): Config {
    Config(false, missing)
  }

  /** `Create` needs an id that is not in use, and no version counter is about to overflow. */
  predicate Enabled(missing: bool, s: World, e: Step) {
    match e
    case Join(c) => c != DELETED && c !in s.clients && (missing ==> s.clients == map[])
    case Create(c, b, _) => c in s.clients && b !in s.base && VersionOf(s.clients[c], c, b) + 1 < U64_MAX
    case Store(c, b, _) => c in s.clients && VersionOf(s.clients[c], c, b) + 1 < U64_MAX
    case Delete(c, _) => c in s.clients
    case Load(c, _) => c in s.clients
    case Restart(c, vs, ls) =>
      && c in s.clients && ListsVersions(vs, s.clients[c].versions) && ListsLasts(ls, s.clients[c].last)
      && |vs| <= U64_MAX && |ls| <= U64_MAX
  }

  /** What client `c` gets when it loads `b` now. */
  function LoadNow(missing: bool, s: World, c: U32, b: BlockId): LoadOutcome
    requires c in s.clients && (b in s.base ==> Readable(s.base[b]))
  {
    LoadAnswer(Cfg(missing), s.clients[c], b, Answer(s.base, b))
  }

  /** One client's memory and the base store have changed. */
  function Put(s: World, c: U32, k: Known, base: Base): World {
    World(base, s.clients[c := k])
  }

  function Apply(missing: bool, s: World, e: Step): World {
    match e
    case Join(c) => s.(clients := s.clients[c := Known(c, false, map[], map[])])
    case Create(c, b, data) =>
      if c !in s.clients then s
      else var r := CreateBlock(s.clients[c], s.base, b, data); Put(s, c, r.0, r.1)
    case Store(c, b, data) =>
      if c !in s.clients then s
      else var r := StoreBlock(s.clients[c], s.base, b, data); Put(s, c, r.0, r.1)
    case Delete(c, b) =>
      if c !in s.clients then s
      else Put(s, c, MarkDeleted(s.clients[c], b), s.base - {b})
    case Load(c, b) =>
      if c !in s.clients || (b in s.base && !Readable(s.base[b])) then s
      else var o := LoadNow(missing, s, c, b); Put(s, c, o.known, LoadBase(s.base, b, o.rewrite))
    case Restart(c, vs, ls) =>
      if c !in s.clients then s
      else
        var file := LoadFile(c, Some(EncodeFile(s.clients[c].violation, vs, ls)));
        if file.Loaded? then Put(s, c, file.known, s.base) else s
  }

  function M(missing: bool): Machine<World, Step> {
    Machine(World(map[], map[]), (s, e) => Enabled(missing, s, e), (s, e) => Apply(missing, s, e))
  }

  /** The reference: a plain map from ids to payloads. */
  function Plain(m: map<BlockId, seq<byte>>, e: Step): map<BlockId, seq<byte>> {
    match e
    case Create(_, b, data) => m[b := data]
    case Store(_, b, data) => m[b := data]
    case Delete(_, b) => m - {b}
    case Join(_) => m
    case Load(_, _) => m
    case Restart(_, _, _) => m
  }

  function PlainRun(es: seq<Step>): map<BlockId, seq<byte>> {
    if es == [] then map[] else Plain(PlainRun(es[..|es| - 1]), es[|es| - 1])
  }

  // ---------- the invariant ----------

  /** A client's own counter for a block. */
  function Own(s: World, c: U32, b: BlockId): U64 {
    if c in s.clients then VersionOf(s.clients[c], c, b) else 0
  }

  /** Nobody knows a version of a client that the client has not given out. */
  ghost predicate NothingFromTheFuture(s: World) {
    forall x, c, b | x in s.clients :: VersionOf(s.clients[x], c, b) <= Own(s, c, b)
  }

  predicate ClientOk(s: World, c: U32)
    requires c in s.clients
  {
    c != DELETED && s.clients[c].me == c && !s.clients[c].violation
  }

  /** The block in the store is its writer's newest, and whoever knows that version has it as the last update. */
  predicate BlockOk(s: World, b: BlockId)
    requires b in s.base
  {
    var block := s.base[b];
    && |block| >= HEADER_LENGTH && ReadFormat(block) == FORMAT && ReadBlockId(block) == b
    && ReadClient(block) in s.clients && ReadVersion(block) > 0
    && ReadVersion(block) == Own(s, ReadClient(block), b)
    && forall x | x in s.clients ::
         VersionOf(s.clients[x], ReadClient(block), b) == ReadVersion(block) ==> LastOf(s.clients[x], b) == ReadClient(block)
  }

  /** The single client expects exactly the blocks that exist. */
  predicate ExpectedExists(s: World) {
    |s.clients| <= 1 && (s.clients == map[] ==> s.base == map[]) && forall c | c in s.clients :: Existing(s.clients[c]) == s.base.Keys
  }

  ghost predicate Inv(missing: bool, s: World) {
    && (forall c | c in s.clients :: ClientOk(s, c))
    && (forall b | b in s.base :: BlockOk(s, b))
    && NothingFromTheFuture(s)
    && (missing ==> ExpectedExists(s))
  }

  /** A block that satisfies the invariant is accepted by every client, with nothing reported or rewritten. */
  lemma {:induction false} LoadAccepted(missing: bool, s: World, c: U32, b: BlockId)
    requires Inv(missing, s) && c in s.clients
    ensures b in s.base ==> Readable(s.base[b]) && s.base[b] == Prepend(b, ReadClient(s.base[b]), ReadVersion(s.base[b]), BlockHeader.Remove(s.base[b]))
    ensures var o := LoadNow(missing, s, c, b);
      if b in s.base
      then o == LoadOutcome(Check(s.clients[c], ReadClient(s.base[b]), b, ReadVersion(s.base[b])).0, Data(BlockHeader.Remove(s.base[b])), None)
           && Check(s.clients[c], ReadClient(s.base[b]), b, ReadVersion(s.base[b])).1 == Accepted
      else o == LoadOutcome(s.clients[c], Nothing, None)
  {
    assert ClientOk(s, c);
    if b in s.base {
      var block := s.base[b];
      assert BlockOk(s, b);
      HeaderDetermined(block);
      AcceptedIff(s.clients[c], ReadClient(block), b, ReadVersion(block));
      assert VersionOf(s.clients[c], ReadClient(block), b) <= Own(s, ReadClient(block), b);
      assert ClientOk(s, ReadClient(block));
    } else if missing {
      assert b !in Existing(s.clients[c]);
    }
  }

  // ---------- every step keeps it ----------

  lemma {:induction false} ClientsKept(s: World, c: U32, k: Known, base: Base)
    requires (forall x | x in s.clients :: ClientOk(s, x)) && c in s.clients && k.me == c && !k.violation
    ensures forall x | x in Put(s, c, k, base).clients :: ClientOk(Put(s, c, k, base), x)
  {
  }

  lemma {:induction false} FutureKept(s: World, c: U32, k: Known, base: Base)
    requires NothingFromTheFuture(s) && c in s.clients
    requires forall b :: VersionOf(k, c, b) >= VersionOf(s.clients[c], c, b)
    requires forall d, b | d != c :: VersionOf(k, d, b) <= Own(s, d, b)
    ensures NothingFromTheFuture(Put(s, c, k, base))
  {
    var t := Put(s, c, k, base);
    forall x, d, b | x in t.clients ensures VersionOf(t.clients[x], d, b) <= Own(t, d, b) {
      assert x in s.clients && VersionOf(s.clients[x], d, b) <= Own(s, d, b);
      assert d != c ==> Own(t, d, b) == Own(s, d, b);
    }
  }

  lemma {:induction false} ExpectedKept(s: World, c: U32, k: Known, base: Base)
    requires ExpectedExists(s) && c in s.clients && Existing(k) == base.Keys
    ensures ExpectedExists(Put(s, c, k, base))
  {
    assert Put(s, c, k, base).clients.Keys == s.clients.Keys;
    assert s.clients.Keys == {c} by {
      if d :| d in s.clients.Keys && d != c {
        assert {c, d} <= s.clients.Keys && |{c, d}| == 2;
        SubsetSize({c, d}, s.clients.Keys);
      }
    }
  }

  lemma {:induction false} SubsetSize<T>(a: set<T>, b: set<T>)
    requires a <= b
    ensures |a| <= |b|
  {
    assert b == a + (b - a);
  }

  lemma {:induction false} WriteKeepsBlocks(missing: bool, s: World, c: U32, b: BlockId, data: seq<byte>, b': BlockId)
    requires Inv(missing, s) && c in s.clients && VersionOf(s.clients[c], c, b) + 1 < U64_MAX
    requires b' == b || b' in s.base
    ensures BlockOk(Written(s, c, b, data), b')
  {
    var v := VersionOf(s.clients[c], c, b) + 1;
    var t := Written(s, c, b, data);
    assert ClientOk(s, c);
    if b' == b {
      HeaderRoundTrip(b, c, v, data);
      IncrementEffect(s.clients[c], b, c, b);
      forall x | x in t.clients && VersionOf(t.clients[x], c, b) == v ensures LastOf(t.clients[x], b) == c {
        assert x in s.clients && VersionOf(s.clients[x], c, b) <= Own(s, c, b);
      }
    } else {
      assert BlockOk(s, b');
      var w := ReadClient(s.base[b']);
      IncrementEffect(s.clients[c], b, w, b');
      IncrementEffect(s.clients[c], b, c, b');
      assert Own(t, w, b') == Own(s, w, b');
    }
  }

  /** The state after client `c` has written block `b` as its next version. */
  function Written(s: World, c: U32, b: BlockId, data: seq<byte>): World
    requires c in s.clients && VersionOf(s.clients[c], c, b) + 1 < U64_MAX
  {
    Put(s, c, Increment(s.clients[c], b).0, s.base[b := Prepend(b, c, VersionOf(s.clients[c], c, b) + 1, data)])
  }

  lemma {:induction false} WriteEffect(missing: bool, s: World, c: U32, b: BlockId, d: U32, b': BlockId)
    requires Inv(missing, s) && c in s.clients && VersionOf(s.clients[c], c, b) + 1 < U64_MAX
    ensures var k, k' := s.clients[c], Increment(s.clients[c], b).0;
      && k'.me == c && !k'.violation && c != DELETED
      && VersionOf(k', c, b') >= VersionOf(k, c, b')
      && (d != c ==> VersionOf(k', d, b') <= Own(s, d, b'))
      && Existing(k') == Existing(k) + {b}
  {
  }

  lemma {:induction false} WriteKept(missing: bool, s: World, c: U32, b: BlockId, data: seq<byte>)
    requires Inv(missing, s) && c in s.clients && VersionOf(s.clients[c], c, b) + 1 < U64_MAX
    ensures Inv(missing, Written(s, c, b, data))
  {
    var k' := Increment(s.clients[c], b).0;
    var t := Written(s, c, b, data);
    WriteEffect(missing, s, c, b, c, b);
    ClientsKept(s, c, k', t.base);
    forall b' | b' in t.base ensures BlockOk(t, b') {
      WriteKeepsBlocks(missing, s, c, b, data, b');
    }
    forall d, b' ensures VersionOf(k', c, b') >= VersionOf(s.clients[c], c, b') && (d != c ==> VersionOf(k', d, b') <= Own(s, d, b')) {
      WriteEffect(missing, s, c, b, d, b');
    }
    FutureKept(s, c, k', t.base);
    if missing {
      ExpectedKept(s, c, k', t.base);
    }
  }

  lemma {:induction false} DeleteKept(missing: bool, s: World, c: U32, b: BlockId)
    requires Inv(missing, s) && c in s.clients
    ensures Inv(missing, Put(s, c, MarkDeleted(s.clients[c], b), s.base - {b}))
  {
    var k' := MarkDeleted(s.clients[c], b);
    var t := Put(s, c, k', s.base - {b});
    assert ClientOk(s, c);
    ClientsKept(s, c, k', t.base);
    forall b' | b' in t.base ensures BlockOk(t, b') {
      DeleteKeepsBlocks(missing, s, c, b, b');
    }
    forall d, b' ensures VersionOf(k', d, b') == VersionOf(s.clients[c], d, b') && VersionOf(k', d, b') <= Own(s, d, b') {
      assert VersionOf(s.clients[c], d, b') <= Own(s, d, b');
    }
    FutureKept(s, c, k', t.base);
    if missing {
      assert Existing(k') == Existing(s.clients[c]) - {b};
      ExpectedKept(s, c, k', t.base);
    }
  }

  lemma {:induction false} DeleteKeepsBlocks(missing: bool, s: World, c: U32, b: BlockId, b': BlockId)
    requires Inv(missing, s) && c in s.clients && b' in s.base && b' != b
    ensures BlockOk(Put(s, c, MarkDeleted(s.clients[c], b), s.base - {b}), b')
  {
    var t := Put(s, c, MarkDeleted(s.clients[c], b), s.base - {b});
    assert BlockOk(s, b');
    var w := ReadClient(s.base[b']);
    forall x | x in t.clients
      ensures x in s.clients && VersionOf(t.clients[x], w, b') == VersionOf(s.clients[x], w, b') && LastOf(t.clients[x], b') == LastOf(s.clients[x], b')
    {
    }
    assert t.base[b'] == s.base[b'];
  }

  /** The state after client `c` has accepted the block it loaded. */
  function Seen(s: World, c: U32, b: BlockId): World
    requires c in s.clients && b in s.base && |s.base[b]| >= HEADER_LENGTH
  {
    Put(s, c, Check(s.clients[c], ReadClient(s.base[b]), b, ReadVersion(s.base[b])).0, s.base)
  }

  lemma {:induction false} SeenEffect(missing: bool, s: World, c: U32, b: BlockId, d: U32, b': BlockId)
    requires Inv(missing, s) && c in s.clients && b in s.base
    ensures |s.base[b]| >= HEADER_LENGTH
    ensures var k, k' := s.clients[c], Seen(s, c, b).clients[c];
      var w, v := ReadClient(s.base[b]), ReadVersion(s.base[b]);
      && k'.me == c && !k'.violation && w != DELETED
      && VersionOf(k', d, b') == (if d == w && b' == b then v else VersionOf(k, d, b'))
      && LastOf(k', b') == (if b' == b then w else LastOf(k, b'))
      && VersionOf(k, d, b') <= VersionOf(k', d, b') <= Own(s, d, b')
      && Own(Seen(s, c, b), d, b') == Own(s, d, b')
  {
  }

  lemma {:induction false} SeenKeepsBlocks(missing: bool, s: World, c: U32, b: BlockId, b': BlockId)
    requires Inv(missing, s) && c in s.clients && b in s.base && b' in s.base
    ensures |s.base[b]| >= HEADER_LENGTH && BlockOk(Seen(s, c, b), b')
  {
    assert BlockOk(s, b) && BlockOk(s, b');
    SeenEffect(missing, s, c, b, ReadClient(s.base[b']), b');
  }

  lemma {:induction false} SeenKept(missing: bool, s: World, c: U32, b: BlockId)
    requires Inv(missing, s) && c in s.clients && b in s.base
    ensures |s.base[b]| >= HEADER_LENGTH && Inv(missing, Seen(s, c, b))
  {
    SeenEffect(missing, s, c, b, c, b);
    var t := Seen(s, c, b);
    var k' := t.clients[c];
    ClientsKept(s, c, k', s.base);
    forall b' | b' in t.base ensures BlockOk(t, b') {
      SeenKeepsBlocks(missing, s, c, b, b');
    }
    forall d, b' ensures VersionOf(s.clients[c], d, b') <= VersionOf(k', d, b') <= Own(s, d, b') {
      SeenEffect(missing, s, c, b, d, b');
    }
    FutureKept(s, c, k', s.base);
    if missing {
      SeenExisting(missing, s, c, b);
      ExpectedKept(s, c, k', s.base);
    }
  }

  lemma {:induction false} SeenExisting(missing: bool, s: World, c: U32, b: BlockId)
    requires Inv(missing, s) && c in s.clients && b in s.base && missing
    ensures |s.base[b]| >= HEADER_LENGTH && Existing(Seen(s, c, b).clients[c]) == s.base.Keys
  {
    SeenEffect(missing, s, c, b, c, b);
    forall b' ensures b' in Existing(Seen(s, c, b).clients[c]) <==> b' in s.base {
      SeenEffect(missing, s, c, b, c, b');
      assert b' in Existing(s.clients[c]) <==> LastOf(s.clients[c], b') != DELETED;
    }
  }

  lemma {:induction false} JoinKept(missing: bool, s: World, c: U32)
    requires Inv(missing, s) && Enabled(missing, s, Join(c))
    ensures Inv(missing, Apply(missing, s, Join(c)))
  {
    var t := Apply(missing, s, Join(c));
    forall x | x in t.clients ensures ClientOk(t, x) {
      assert x != c ==> ClientOk(s, x);
    }
    forall b | b in t.base ensures BlockOk(t, b) {
      assert BlockOk(s, b);
    }
    forall x, d, b | x in t.clients ensures VersionOf(t.clients[x], d, b) <= Own(t, d, b) {
      assert x != c ==> VersionOf(s.clients[x], d, b) <= Own(s, d, b);
    }
  }

  /** Every step is one of: join, write, delete, see, or nothing at all. */
  lemma {:induction false} StepShape(missing: bool, s: World, e: Step)
    requires Inv(missing, s) && Enabled(missing, s, e) && !e.Join?
    ensures match e
      case Create(c, b, data) => Apply(missing, s, e) == Written(s, c, b, data)
      case Store(c, b, data) => Apply(missing, s, e) == Written(s, c, b, data)
      case Delete(c, b) => Apply(missing, s, e) == Put(s, c, MarkDeleted(s.clients[c], b), s.base - {b})
      case Load(c, b) =>
        if b in s.base then |s.base[b]| >= HEADER_LENGTH && Apply(missing, s, e) == Seen(s, c, b) else Apply(missing, s, e) == s
      case Restart(_, _, _) => Apply(missing, s, e) == s
      case Join(_) => true
  {
    assert ClientOk(s, e.c);
    assert s.clients[e.c := s.clients[e.c]] == s.clients;
    if e.Load? {
      LoadAccepted(missing, s, e.c, e.b);
    } else if e.Restart? {
      FileRoundTrip(s.clients[e.c], e.vs, e.ls);
    }
  }

  lemma {:induction false} InvKept(missing: bool, s: World, e: Step)
    requires Inv(missing, s) && Enabled(missing, s, e)
    ensures Inv(missing, Apply(missing, s, e))
  {
    if e.Join? {
      JoinKept(missing, s, e.c);
    } else {
      StepShape(missing, s, e);
      if e.Create? || e.Store? {
        WriteKept(missing, s, e.c, e.b, e.data);
      } else if e.Delete? {
        DeleteKept(missing, s, e.c, e.b);
      } else if e.Load? && e.b in s.base {
        SeenKept(missing, s, e.c, e.b);
      }
    }
  }

  /** The payloads in the store. */
  function Payloads(base: Base): map<BlockId, seq<byte>> {
    map b | b in base && |base[b]| >= HEADER_LENGTH :: BlockHeader.Remove(base[b])
  }

  lemma {:induction false} PayloadWritten(base: Base, b: BlockId, c: U32, v: U64, data: seq<byte>)
    ensures Payloads(base[b := Prepend(b, c, v, data)]) == Payloads(base)[b := data]
  {
  }

  /** What a step does to the base store. */
  lemma {:induction false} BaseAfter(missing: bool, s: World, e: Step)
    requires Inv(missing, s) && Enabled(missing, s, e)
    ensures match e
      case Create(c, b, data) => Apply(missing, s, e).base == s.base[b := Prepend(b, c, VersionOf(s.clients[c], c, b) + 1, data)]
      case Store(c, b, data) => Apply(missing, s, e).base == s.base[b := Prepend(b, c, VersionOf(s.clients[c], c, b) + 1, data)]
      case Delete(_, b) => Apply(missing, s, e).base == s.base - {b}
      case Join(_) => Apply(missing, s, e).base == s.base
      case Load(_, _) => Apply(missing, s, e).base == s.base
      case Restart(_, _, _) => Apply(missing, s, e).base == s.base
  {
    if !e.Join? {
      StepShape(missing, s, e);
    }
  }

  lemma {:induction false} PayloadsFollow(missing: bool, s: World, e: Step, base: Base)
    requires Inv(missing, s) && Enabled(missing, s, e) && base == Apply(missing, s, e).base
    ensures Payloads(base) == Plain(Payloads(s.base), e)
  {
    BaseAfter(missing, s, e);
    if e.Create? || e.Store? {
      PayloadWritten(s.base, e.b, e.c, VersionOf(s.clients[e.c], e.c, e.b) + 1, e.data);
    } else if e.Delete? {
      PayloadDeleted(s.base, e.b);
    }
  }

  lemma {:induction false} PayloadDeleted(base: Base, b: BlockId)
    ensures Payloads(base - {b}) == Payloads(base) - {b}
  {
  }

  // ---------- main results, over every run ----------

  lemma {:induction false} Reachable(missing: bool, ss: seq<World>, es: seq<Step>, n: nat)
    requires IsRun(M(missing), ss, es) && n < |ss|
    ensures Inv(missing, ss[n])
  {
    forall s, e | Inv(missing, s) && Enabled(missing, s, e) ensures Inv(missing, Apply(missing, s, e)) {
      InvKept(missing, s, e);
    }
    Kept(M(missing), ss, es, s => Inv(missing, s), e => true, 0, n);
  }

  lemma {:induction false} StoreIsPlainMap(missing: bool, ss: seq<World>, es: seq<Step>, n: nat)
    requires IsRun(M(missing), ss, es) && n < |ss|
    ensures Payloads(ss[n].base) == PlainRun(es[..n]) && ss[n].base.Keys == PlainRun(es[..n]).Keys
  {
    Reachable(missing, ss, es, n);
    if n > 0 {
      StoreIsPlainMap(missing, ss, es, n - 1);
      Reachable(missing, ss, es, n - 1);
      assert StepAt(M(missing), ss, es, n - 1);
      PayloadsFollow(missing, ss[n - 1], es[n - 1], ss[n].base);
      assert es[..n][..n - 1] == es[..n - 1];
    }
    forall b | b in ss[n].base ensures b in Payloads(ss[n].base) {
      assert BlockOk(ss[n], b);
    }
  }

  /**
   Completeness: in every run of honest clients every load succeeds with the
   last stored payload, or finds nothing exactly when the block is absent; no
   violation is ever reported and nothing is rewritten.
   */
  lemma {:induction false} HonestLoadsSucceed(missing: bool, ss: seq<World>, es: seq<Step>, n: nat, c: U32, b: BlockId)
    requires IsRun(M(missing), ss, es) && n < |ss| && c in ss[n].clients
    ensures b in ss[n].base ==> Readable(ss[n].base[b])
    ensures var o := LoadNow(missing, ss[n], c, b);
      && o.result == (if b in PlainRun(es[..n]) then Data(PlainRun(es[..n])[b]) else Nothing)
      && o.rewrite == None && !o.known.violation
  {
    Reachable(missing, ss, es, n);
    StoreIsPlainMap(missing, ss, es, n);
    LoadAccepted(missing, ss[n], c, b);
    assert ClientOk(ss[n], c);
    if b in ss[n].base {
      CheckEffect(ss[n].clients[c], ReadClient(ss[n].base[b]), b, ReadVersion(ss[n].base[b]), c, b);
    }
  }

  /** Every creation of a fresh block answers so, and from then on every client loads its data. */
  lemma {:induction false} CreateSucceeds(missing: bool, ss: seq<World>, es: seq<Step>, n: nat, c: U32, b: BlockId, data: seq<byte>, reader: U32)
    requires IsRun(M(missing), ss, es) && n < |es| && es[n] == Create(c, b, data) && reader in ss[n + 1].clients
    ensures c in ss[n].clients && CreateBlock(ss[n].clients[c], ss[n].base, b, data).2 == Created
    ensures b in ss[n + 1].base && Readable(ss[n + 1].base[b]) && LoadNow(missing, ss[n + 1], reader, b).result == Data(data)
  {
    assert StepAt(M(missing), ss, es, n);
    Reachable(missing, ss, es, n);
    assert ClientOk(ss[n], c);
    CreateAnswersIff(ss[n].clients[c], ss[n].base, b, data);
    HonestLoadsSucceed(missing, ss, es, n + 1, reader, b);
    StoreIsPlainMap(missing, ss, es, n + 1);
    assert es[..n + 1][..n] == es[..n];
  }

  /** Every store answers so, and from then on every client loads its data. */
  lemma {:induction false} StoreSucceeds(missing: bool, ss: seq<World>, es: seq<Step>, n: nat, c: U32, b: BlockId, data: seq<byte>, reader: U32)
    requires IsRun(M(missing), ss, es) && n < |es| && es[n] == Store(c, b, data) && reader in ss[n + 1].clients
    ensures c in ss[n].clients && StoreBlock(ss[n].clients[c], ss[n].base, b, data).2
    ensures b in ss[n + 1].base && Readable(ss[n + 1].base[b]) && LoadNow(missing, ss[n + 1], reader, b).result == Data(data)
  {
    assert StepAt(M(missing), ss, es, n);
    Reachable(missing, ss, es, n);
    assert ClientOk(ss[n], c);
    StoreAnswersIff(ss[n].clients[c], ss[n].base, b, data);
    HonestLoadsSucceed(missing, ss, es, n + 1, reader, b);
    StoreIsPlainMap(missing, ss, es, n + 1);
    assert es[..n + 1][..n] == es[..n];
  }

  /** With one client, the blocks it expects are always exactly the blocks there are, so nothing is reported missing. */
  lemma {:induction false} NothingMissing(ss: seq<World>, es: seq<Step>, n: nat, c: U32)
    requires IsRun(M(true), ss, es) && n < |ss| && c in ss[n].clients
    ensures Existing(ss[n].clients[c]) == ss[n].base.Keys
  {
    Reachable(true, ss, es, n);
  }

  /**
   Why `Create` needs a fresh id: when the base store refuses, the version is
   already used up.  The creator's next load is then rejected exactly if it
   knows the version in the store, and nobody else is affected.
   */
  lemma {:induction false} RefusedCreateBlocksLoad(missing: bool, s: World, c: U32, b: BlockId, data: seq<byte>)
    requires Inv(missing, s) && c in s.clients && b in s.base && VersionOf(s.clients[c], c, b) + 1 < U64_MAX
    ensures Readable(s.base[b])
    ensures var r := CreateBlock(s.clients[c], s.base, b, data);
      && r.2 == Exists && r.1 == s.base
      && (LoadAnswer(Cfg(missing), r.0, b, Some(s.base[b])).result == Nothing <==>
            VersionOf(s.clients[c], ReadClient(s.base[b]), b) == ReadVersion(s.base[b]))
  {
    var k := s.clients[c];
    var w, v := ReadClient(s.base[b]), ReadVersion(s.base[b]);
    LoadAccepted(missing, s, c, b);
    assert BlockOk(s, b) && ClientOk(s, c) && ClientOk(s, w);
    assert VersionOf(k, w, b) <= Own(s, w, b);
    IncrementEffect(k, b, w, b);
    AcceptedIff(Increment(k, b).0, w, b, v);
  }

  /** A run that gets there: one client creates a block, tries to create it again, and can no longer load it. */
  lemma {:induction false} RefusedCreateRun(missing: bool, b: BlockId, data: seq<byte>)
    ensures var s0 := M(missing).init;
      var s1 := Apply(missing, s0, Join(1));
      var s2 := Apply(missing, s1, Create(1, b, data));
      && Enabled(missing, s0, Join(1)) && Enabled(missing, s1, Create(1, b, data))
      && b in s2.base && Readable(s2.base[b])
      && var r := CreateBlock(s2.clients[1], s2.base, b, data);
         r.2 == Exists && LoadAnswer(Cfg(missing), r.0, b, Some(s2.base[b])).result == Nothing
  {
    HeaderRoundTrip(b, 1, 1, data);
  }
}
