/**
 The write-back cache over a block store, and the plain map it has to agree
 with.  Which entry leaves the cache and when is up to the environment; leaving
 runs the destructor of the cached block, which writes it back if it is dirty.
 */
module CachingStore {
  import opened Bytes
  import opened Runs
  import opened PlainStore

  datatype Cached = Cached(data: seq<byte>, dirty: bool)

  /** `notInBase` are the cached blocks that were created here and never written back. */
  datatype Store = Store(base: Blocks, cache: map<BlockId, Cached>, notInBase: set<BlockId>)

  // ---------- the cache ----------

  /** Destroys the cached block: writes it back if dirty and takes it off the not-in-base list. */
  function Destroyed(s: Store, b: BlockId): Store
    requires b in s.cache
  {
    Store(if s.cache[b].dirty then s.base[b := s.cache[b].data] else s.base, s.cache - {b}, s.notInBase - {b})
  }

  function Step(s: Store, e: Event): Store {
    match e
    case Create(b, data) =>
      if b in s.cache then s else s.(cache := s.cache[b := Cached(data, true)], notInBase := s.notInBase + {b})
    case Put(b, data) =>
      if b in s.cache then s.(cache := s.cache[b := Cached(data, true)])
      else s.(base := s.base[b := data], cache := s.cache[b := Cached(data, false)])
    case Get(b) =>
      if b in s.cache || b !in s.base then s else s.(cache := s.cache[b := Cached(s.base[b], false)])
    case Remove(b) =>
      if b !in s.cache then s.(base := s.base - {b})
      else if b in s.notInBase then s.(cache := s.cache - {b}, notInBase := s.notInBase - {b})
      else if b in s.base then s.(base := s.base - {b}, cache := s.cache - {b})
      else if s.cache[b].dirty then Destroyed(s, b)     // the exception unwinds through the popped block
      else s.(cache := s.cache - {b})
    case Evict(b) => if b in s.cache then Destroyed(s, b) else s
  }

  function Output(s: Store, e: Event): Out {
    match e
    case Create(b, _) => Flag(b !in s.cache)
    case Put(_, _) => Done
    case Get(b) =>
      Found(if b in s.cache then Some(s.cache[b].data) else if b in s.base then Some(s.base[b]) else None)
    case Remove(b) =>
      if b !in s.cache then Flag(b in s.base)
      else if b in s.notInBase || b in s.base then Flag(true)
      else Thrown
    case Evict(_) => Done
  }

  /** Base store overlaid by the cache: what a caller should see. */
  function View(s: Store): Blocks {
    map b | b in s.base.Keys + s.cache.Keys :: if b in s.cache then s.cache[b].data else s.base[b]
  }

  predicate Inv(s: Store) {
    && s.notInBase <= s.cache.Keys
    && s.notInBase !! s.base.Keys
    && (forall b | b in s.notInBase :: s.cache[b].dirty)
    && (forall b | b in s.cache && b !in s.notInBase :: b in s.base)
    && (forall b | b in s.cache && !s.cache[b].dirty :: b in s.base && s.base[b] == s.cache[b].data)
  }

  /** `tryCreate` does not look into the base store: its id must not be there unless it is cached as well. */
  predicate FreshId(s: Store, b: BlockId) {
    b in s.cache || b !in s.base
  }

  predicate Enabled(s: Store, e: Event) {
    match e
    case Create(b, _) => FreshId(s, b)
    case Evict(b) => b in s.cache
    case _ => true
  }

  lemma {:induction false} InvKept(s: Store, e: Event)
    requires Inv(s) && Enabled(s, e)
    ensures Inv(Step(s, e))
  {
  }

  lemma {:induction false} OutputAgrees(s: Store, e: Event)
    requires Inv(s) && Enabled(s, e)
    ensures Output(s, e) == PlainOut(View(s), e)
  {
  }

  /** Writing to the cache, or to both levels, shows in the view. */
  lemma {:induction false} ViewPut(s: Store, b: BlockId, c: Cached, base: Blocks)
    requires base == s.base || base == s.base[b := c.data]
    ensures View(s.(base := base, cache := s.cache[b := c])) == View(s)[b := c.data]
  {
  }

  lemma {:induction false} ViewDropped(s: Store, b: BlockId)
    ensures View(s.(base := s.base - {b}, cache := s.cache - {b})) == View(s) - {b}
    ensures b !in s.cache ==> View(s.(base := s.base - {b})) == View(s) - {b}
    ensures b !in s.base ==> View(s.(cache := s.cache - {b})) == View(s) - {b}
  {
  }

  /** An eviction is invisible. */
  lemma {:induction false} ViewDestroyed(s: Store, b: BlockId)
    requires Inv(s) && b in s.cache
    ensures View(Destroyed(s, b)) == View(s)
  {
  }

  lemma {:induction false} ViewFollows(s: Store, e: Event)
    requires Inv(s) && Enabled(s, e)
    ensures View(Step(s, e)) == PlainStep(View(s), e)
  {
    match e
    case Create(b, data) => ViewPut(s, b, Cached(data, true), s.base);
    case Put(b, data) => ViewPut(s, b, Cached(data, true), s.base); ViewPut(s, b, Cached(data, false), s.base[b := data]);
    case Get(b) => if b in s.base { ViewPut(s, b, Cached(s.base[b], false), s.base); }
    case Remove(b) => ViewDropped(s, b);
    case Evict(b) => ViewDestroyed(s, b);
  }

  /** One operation on the cached store is the same operation on the view. */
  lemma {:induction false} StepRefines(s: Store, e: Event)
    requires Inv(s) && Enabled(s, e)
    ensures Inv(Step(s, e))
    ensures View(Step(s, e)) == PlainStep(View(s), e)
    ensures Output(s, e) == PlainOut(View(s), e)
  {
    InvKept(s, e);
    ViewFollows(s, e);
    OutputAgrees(s, e);
  }

  /**
   It is a cache: a block that was created, stored or found is cached, and the
   base store is touched only for blocks that are not, and to remove or write back.
   */
  lemma {:induction false} UsedIsCached(s: Store, e: Event)
    requires Inv(s) && Enabled(s, e)
    ensures (e.Create? || e.Put?) ==> e.b in Step(s, e).cache
    ensures e.Get? && e.b in View(s) ==> e.b in Step(s, e).cache
    ensures (e.Create? || e.Get? || (e.Put? && e.b in s.cache)) ==> Step(s, e).base == s.base
    ensures e.Evict? ==> e.b !in Step(s, e).cache
    ensures e.Evict? && !s.cache[e.b].dirty ==> Step(s, e).base == s.base
  {
  }

  /** When `tryCreate` answers and acts as the plain map would: exactly for fresh ids. */
  lemma {:induction false} CreateRefinesIff(s: Store, b: BlockId, data: seq<byte>)
    requires Inv(s)
    ensures Output(s, Create(b, data)) == PlainOut(View(s), Create(b, data)) <==> FreshId(s, b)
    ensures FreshId(s, b) ==> View(Step(s, Create(b, data))) == PlainStep(View(s), Create(b, data))
  {
  }

  /** Without a fresh id a later `remove` takes away the wrong copy: the old block is back. */
  lemma {:induction false} StaleCreateResurrects(b: BlockId, was: seq<byte>, data: seq<byte>)
    ensures var s0 := Store(map[b := was], map[], {});
      var s1 := Step(s0, Create(b, data));
      var s2 := Step(s1, Remove(b));
      Output(s0, Create(b, data)) == Flag(true) && Output(s1, Remove(b)) == Flag(true) && Output(s2, Get(b)) == Found(Some(was))
  {
  }

  lemma {:induction false} EmptyCache(s: Store)
    requires Inv(s) && s.cache == map[]
    ensures View(s) == s.base && s.notInBase == {}
  {
  }

  lemma {:induction false} CountsAdd(s: Store)
    requires Inv(s)
    ensures |s.base| + |s.notInBase| == |View(s)| && View(s).Keys == s.base.Keys + s.notInBase
  {
  }

  // ---------- creation in two halves ----------

  /** `tryCreate` first pushes the block into the cache and then, under another mutex, lists it as not in base. */
  function Pushed(s: Store, b: BlockId, data: seq<byte>): Store {
    s.(cache := s.cache[b := Cached(data, true)])
  }

  function Listed(s: Store, b: BlockId): Store {
    s.(notInBase := s.notInBase + {b})
  }

  /**
   The store with the creations that are between their halves.  The flag, which
   is not in the source, says that the block has been evicted since it was pushed.
   */
  datatype Running = Running(store: Store, creating: map<BlockId, bool>)

  datatype Action =
    | Do(e: Event)                              // a whole operation, or an eviction
    | Begin(b: BlockId, data: seq<byte>)        // `tryCreate` finds nothing in the cache and pushes
    | End(b: BlockId)                           // `tryCreate` lists and returns

  /** Operations on one id do not overlap; evictions come at any time. */
  predicate Can(s: Running, a: Action) {
    match a
    case Do(Evict(b)) => b in s.store.cache
    case Do(Create(b, _)) => b in s.store.cache && b !in s.creating
    case Do(e) => e.b !in s.creating
    case Begin(b, _) => b !in s.store.cache && b !in s.creating
    case End(b) => b in s.creating
  }

  function Act(s: Running, a: Action): Running {
    match a
    case Do(e) =>
      Running(Step(s.store, e), if e.Evict? && e.b in s.creating then s.creating[e.b := true] else s.creating)
    case Begin(b, data) => Running(Pushed(s.store, b, data), s.creating[b := false])
    case End(b) => Running(Listed(s.store, b), s.creating - {b})
  }

  function Answer(s: Running, a: Action): Out {
    match a
    case Do(e) => Output(s.store, e)
    case Begin(_, _) => Flag(true)
    case End(_) => Done
  }

  /** The plain map creates the block at once. */
  function PlainAct(m: Blocks, a: Action): Blocks {
    match a
    case Do(e) => PlainStep(m, e)
    case Begin(b, data) => PlainStep(m, Create(b, data))
    case End(_) => m
  }

  function PlainAnswer(m: Blocks, a: Action): Out {
    match a
    case Do(e) => PlainOut(m, e)
    case Begin(b, data) => PlainOut(m, Create(b, data))
    case End(_) => Done
  }

  function PlainAlong(base: Blocks, acts: seq<Action>): Blocks {
    if acts == [] then base else PlainAct(PlainAlong(base, acts[..|acts| - 1]), acts[|acts| - 1])
  }

  /** Created ids are fresh, and no block is listed that was evicted between the halves of its creation. */
  predicate Orderly(s: Running, a: Action) {
    match a
    case Begin(b, _) => b !in s.store.base
    case End(b) => b in s.creating ==> !s.creating[b]
    case Do(_) => true
  }

  function M(orderly: bool, base: Blocks): Machine<Running, Action> {
    Machine(Running(Store(base, map[], {}), map[]), (s, a) => Can(s, a) && (orderly ==> Orderly(s, a)), (s, a) => Act(s, a))
  }

  /** Pushed but neither listed nor evicted. */
  function Unlisted(s: Running): set<BlockId> {
    set b | b in s.creating && !s.creating[b]
  }

  /** The store as it will be when all halves are done. */
  function Completed(s: Running): Store {
    s.store.(notInBase := s.store.notInBase + Unlisted(s))
  }

  predicate Good(s: Running) {
    && Inv(Completed(s))
    && forall b | b in s.creating :: b !in s.store.notInBase && (s.creating[b] ==> b in s.store.base && b !in s.store.cache)
  }

  /** Each action is an operation on the completed store. */
  lemma {:induction false} ActCompletes(s: Running, a: Action)
    requires Good(s) && Can(s, a) && Orderly(s, a)
    ensures match a
      case Do(e) => Completed(Act(s, a)) == Step(Completed(s), e) && Output(s.store, e) == Output(Completed(s), e)
      case Begin(b, data) => Completed(Act(s, a)) == Step(Completed(s), Create(b, data))
      case End(_) => Completed(Act(s, a)) == Completed(s)
  {
    match a
    case Do(e) =>
      if e.Evict? && e.b in s.creating {
        assert Unlisted(Act(s, a)) == Unlisted(s) - {e.b};
      } else {
        assert Unlisted(Act(s, a)) == Unlisted(s);
      }
    case Begin(b, data) => assert Unlisted(Act(s, a)) == Unlisted(s) + {b};
    case End(b) => assert Unlisted(Act(s, a)) == Unlisted(s) - {b};
  }

  lemma {:induction false} ViewCompleted(s: Running)
    ensures View(Completed(s)) == View(s.store)
  {
  }

  /** Every orderly action keeps the store good, does to the view what it does to a plain map, and answers like it. */
  lemma {:induction false} ActRefines(s: Running, a: Action)
    requires Good(s) && Can(s, a) && Orderly(s, a)
    ensures Good(Act(s, a)) && View(Act(s, a).store) == PlainAct(View(s.store), a)
    ensures Answer(s, a) == PlainAnswer(View(s.store), a) && Answer(s, a) != Thrown
  {
    ActCompletes(s, a);
    ViewCompleted(s);
    ViewCompleted(Act(s, a));
    match a
    case Do(e) => StepRefines(Completed(s), e);
    case Begin(b, data) => StepRefines(Completed(s), Create(b, data));
    case End(_) =>
  }

  // ---------- main results, over every run ----------

  /**
   The cached store refines a plain map: in every run with fresh ids, and with
   evictions anywhere except between the halves of the evicted block's own
   creation, it shows and answers what the plain map does, never throws, and
   has written everything back when the cache is empty.
   */
  lemma {:induction false} CacheRefinesMap(base: Blocks, ss: seq<Running>, acts: seq<Action>, n: nat)
    requires IsRun(M(true, base), ss, acts) && n < |ss|
    ensures Good(ss[n]) && View(ss[n].store) == PlainAlong(base, acts[..n])
    ensures n < |acts| ==> Answer(ss[n], acts[n]) == PlainAnswer(PlainAlong(base, acts[..n]), acts[n]) && Answer(ss[n], acts[n]) != Thrown
    ensures ss[n].store.cache == map[] ==> ss[n].store.base == PlainAlong(base, acts[..n])
  {
    if n > 0 {
      CacheRefinesMap(base, ss, acts, n - 1);
      assert StepAt(M(true, base), ss, acts, n - 1);
      ActRefines(ss[n - 1], acts[n - 1]);
      assert acts[..n][..n - 1] == acts[..n - 1];
    }
    if n < |acts| {
      assert StepAt(M(true, base), ss, acts, n);
      ActRefines(ss[n], acts[n]);
    }
    if ss[n].store.cache == map[] {
      EmptyCache(Completed(ss[n]));
    }
  }

  /** `numBlocks` counts every block except those between the halves of their creation. */
  lemma {:induction false} NumBlocksExact(base: Blocks, ss: seq<Running>, acts: seq<Action>, n: nat)
    requires IsRun(M(true, base), ss, acts) && n < |ss|
    ensures |ss[n].store.base| + |ss[n].store.notInBase| + |Unlisted(ss[n])| == |PlainAlong(base, acts[..n])|
  {
    CacheRefinesMap(base, ss, acts, n);
    CountUnlisted(ss[n]);
  }

  lemma {:induction false} CountUnlisted(s: Running)
    requires Good(s)
    ensures |s.store.base| + |s.store.notInBase| + |Unlisted(s)| == |View(s.store)|
  {
    CountsAdd(Completed(s));
    ViewCompleted(s);
    assert s.store.notInBase !! Unlisted(s);
  }

  /** Listing a new block keeps the count exact if and only if the block was not evicted since it was pushed. */
  lemma {:induction false} CountExactIffNotEvicted(s: Running, b: BlockId)
    requires Good(s) && b in s.creating
    ensures var t := Act(s, End(b));
      |t.store.base| + |t.store.notInBase| + |Unlisted(t)| == |View(t.store)| <==> !s.creating[b]
  {
    CountUnlisted(s);
    var t := Act(s, End(b));
    assert View(t.store) == View(s.store);
    assert Unlisted(t) == Unlisted(s) - {b};
  }

  /** The flag means what it says: an eviction of the block lies between the halves of its creation. */
  lemma {:induction false} FlagMeansEvicted(base: Blocks, ss: seq<Running>, acts: seq<Action>, i: nat, j: nat, b: BlockId, data: seq<byte>)
    requires IsRun(M(false, base), ss, acts) && i < j < |ss| && acts[i] == Begin(b, data)
    requires forall k | i < k < j :: acts[k] != End(b)
    ensures b in ss[j].creating && (ss[j].creating[b] <==> exists k :: i < k < j && acts[k] == Do(Evict(b)))
    decreases j
  {
    assert StepAt(M(false, base), ss, acts, j - 1);
    if i < j - 1 {
      FlagMeansEvicted(base, ss, acts, i, j - 1, b, data);
      assert acts[j - 1] != End(b);
    }
  }

  // ---------- exactly when the store behaves like a plain map ----------

  /** The orderly actions `acts` answer from `s` on as they answer on the map `m`. */
  predicate Agrees(s: Running, m: Blocks, acts: seq<Action>)
    decreases |acts|
  {
    acts != [] && Can(s, acts[0]) && Orderly(s, acts[0]) ==>
      Answer(s, acts[0]) == PlainAnswer(m, acts[0]) && Agrees(Act(s, acts[0]), PlainAct(m, acts[0]), acts[1..])
  }

  ghost predicate ActsLike(s: Running, m: Blocks) {
    forall acts: seq<Action> :: Agrees(s, m, acts)
  }

  /** After `i` actions the next one, and whatever orderly actions could follow instead, answer as on the map. */
  ghost predicate LikeMapAt(base: Blocks, ss: seq<Running>, acts: seq<Action>, i: nat)
    requires i <= |acts| < |ss|
  {
    && ActsLike(ss[i], PlainAlong(base, acts[..i]))
    && (i < |acts| ==> Answer(ss[i], acts[i]) == PlainAnswer(PlainAlong(base, acts[..i]), acts[i]))
  }

  predicate OrderlyAt(ss: seq<Running>, acts: seq<Action>, i: nat)
    requires i < |acts| < |ss|
  {
    Orderly(ss[i], acts[i])
  }

  lemma {:induction false} GoodAgrees(s: Running, acts: seq<Action>)
    requires Good(s)
    ensures Agrees(s, View(s.store), acts)
    decreases |acts|
  {
    if acts != [] && Can(s, acts[0]) && Orderly(s, acts[0]) {
      ActRefines(s, acts[0]);
      GoodAgrees(Act(s, acts[0]), acts[1..]);
    }
  }

  /** After a late listing a removed block is back: load it, remove it, load it again. */
  lemma {:induction false} LateListingShows(s: Running, b: BlockId)
    requires Good(s) && b in s.creating && s.creating[b]
    ensures !ActsLike(Act(s, End(b)), View(s.store))
  {
    var s1, m := Act(s, End(b)), View(s.store);
    var s2 := Act(s1, Do(Get(b)));
    var s3 := Act(s2, Do(Remove(b)));
    var acts := [Do(Get(b)), Do(Remove(b)), Do(Get(b))];
    assert acts[1..] == [Do(Remove(b)), Do(Get(b))] && acts[1..][1..] == [Do(Get(b))];
    assert Answer(s3, Do(Get(b))) != PlainAnswer(m - {b}, Do(Get(b)));
    assert !Agrees(s3, m - {b}, acts[1..][1..]);
    assert !Agrees(s2, m, acts[1..]);
    assert !Agrees(s1, m, acts);
  }

  lemma {:induction false} ActingIsOrderly(s: Running, a: Action)
    requires Good(s) && Can(s, a) && Answer(s, a) == PlainAnswer(View(s.store), a)
    requires ActsLike(Act(s, a), PlainAct(View(s.store), a))
    ensures Orderly(s, a) && Good(Act(s, a)) && View(Act(s, a).store) == PlainAct(View(s.store), a)
  {
    if Orderly(s, a) {
      ActRefines(s, a);
    } else if a.End? {
      LateListingShows(s, a.b);
    }
  }

  ghost predicate GoodAt(base: Blocks, ss: seq<Running>, acts: seq<Action>, i: nat)
    requires i <= |acts| < |ss|
  {
    Good(ss[i]) && View(ss[i].store) == PlainAlong(base, acts[..i])
  }

  lemma {:induction false} NextIsOrderly(base: Blocks, ss: seq<Running>, acts: seq<Action>, i: nat)
    requires IsRun(M(false, base), ss, acts) && i < |acts| && GoodAt(base, ss, acts, i)
    requires LikeMapAt(base, ss, acts, i) && LikeMapAt(base, ss, acts, i + 1)
    ensures OrderlyAt(ss, acts, i) && GoodAt(base, ss, acts, i + 1)
  {
    assert StepAt(M(false, base), ss, acts, i);
    assert acts[..i + 1][..i] == acts[..i];
    ActingIsOrderly(ss[i], acts[i]);
  }

  lemma {:induction false} GoodThroughout(base: Blocks, ss: seq<Running>, acts: seq<Action>, n: nat)
    requires IsRun(M(false, base), ss, acts) && n <= |acts| && forall i: nat | i <= |acts| :: LikeMapAt(base, ss, acts, i)
    ensures GoodAt(base, ss, acts, n)
  {
    if n == 0 {
      EmptyCache(Completed(ss[0]));
    } else {
      assert LikeMapAt(base, ss, acts, n - 1) && LikeMapAt(base, ss, acts, n);
      GoodThroughout(base, ss, acts, n - 1);
      NextIsOrderly(base, ss, acts, n - 1);
    }
  }

  lemma {:induction false} OrderlyRun(base: Blocks, ss: seq<Running>, acts: seq<Action>)
    requires IsRun(M(false, base), ss, acts) && forall i: nat | i < |acts| :: OrderlyAt(ss, acts, i)
    ensures IsRun(M(true, base), ss, acts)
  {
    forall i: nat | i < |acts| ensures StepAt(M(true, base), ss, acts, i) {
      assert StepAt(M(false, base), ss, acts, i) && OrderlyAt(ss, acts, i);
    }
  }

  /**
   The exact condition, over every run: the store answers like the plain map at
   every point, whatever orderly actions could follow there, if and only if
   every created id was fresh and no block was evicted between the halves of its creation.
   */
  lemma {:induction false} RefinesIffOrderly(base: Blocks, ss: seq<Running>, acts: seq<Action>)
    requires IsRun(M(false, base), ss, acts)
    ensures (forall n: nat | n <= |acts| :: LikeMapAt(base, ss, acts, n)) <==> (forall i: nat | i < |acts| :: OrderlyAt(ss, acts, i))
  {
    if forall i: nat | i < |acts| :: OrderlyAt(ss, acts, i) {
      OrderlyRun(base, ss, acts);
      forall n: nat | n <= |acts| ensures LikeMapAt(base, ss, acts, n) {
        CacheRefinesMap(base, ss, acts, n);
        forall more: seq<Action> ensures Agrees(ss[n], View(ss[n].store), more) {
          GoodAgrees(ss[n], more);
        }
      }
    }
    if forall n: nat | n <= |acts| :: LikeMapAt(base, ss, acts, n) {
      forall i: nat | i < |acts| ensures OrderlyAt(ss, acts, i) {
        assert LikeMapAt(base, ss, acts, i) && LikeMapAt(base, ss, acts, i + 1);
        GoodThroughout(base, ss, acts, i);
        NextIsOrderly(base, ss, acts, i);
      }
    }
  }

  /** A run that gets there: create with an eviction between the halves, load, remove, and the block is still there. */
  lemma {:induction false} EvictedCreateResurrects(b: BlockId, data: seq<byte>)
    ensures var s0 := Running(Store(map[], map[], {}), map[]);
      var s1 := Act(s0, Begin(b, data));
      var s2 := Act(s1, Do(Evict(b)));
      var s3 := Act(s2, End(b));
      var s4 := Act(s3, Do(Get(b)));
      var s5 := Act(s4, Do(Remove(b)));
      && Can(s0, Begin(b, data)) && Can(s1, Do(Evict(b))) && Can(s2, End(b)) && Can(s3, Do(Get(b))) && Can(s4, Do(Remove(b)))
      && Answer(s4, Do(Remove(b))) == Flag(true) && Answer(s5, Do(Get(b))) == Found(Some(data))
  {
  }

  // ---------- counting while evictions go on ----------

  function EvictAll(s: Store, ids: seq<BlockId>): Store {
    if ids == [] then s else Step(EvictAll(s, ids[..|ids| - 1]), Evict(ids[|ids| - 1]))
  }

  lemma {:induction false} EvictedKeys(s: Store, ids: seq<BlockId>)
    requires Inv(s)
    ensures var t := EvictAll(s, ids);
      && Inv(t) && View(t) == View(s) && t.notInBase == s.notInBase - (set b | b in ids)
      && t.base.Keys == s.base.Keys + (s.notInBase * (set b | b in ids))
  {
    if ids != [] {
      var front, b := ids[..|ids| - 1], ids[|ids| - 1];
      EvictedKeys(s, front);
      var t := EvictAll(s, front);
      if b in t.cache {
        StepRefines(t, Evict(b));
      }
      assert (set x | x in ids) == (set x | x in front) + {b};
    }
  }

  /**
   `numBlocks` reads the two numbers one after the other.  With evictions in
   between their sum is exact if and only if no unwritten block was evicted.
   */
  lemma {:induction false} TornCountIff(s: Store, ids: seq<BlockId>)
    requires Inv(s)
    ensures |s.notInBase| + |EvictAll(s, ids).base| == |View(s)| <==> forall b | b in ids :: b !in s.notInBase
  {
    EvictedKeys(s, ids);
    CountsAdd(s);
    var moved := s.notInBase * (set b | b in ids);
    assert |EvictAll(s, ids).base.Keys| == |s.base.Keys| + |moved|;
    if moved == {} {
      forall b | b in ids ensures b !in s.notInBase {
        assert b !in moved;
      }
    } else {
      var b :| b in moved;
    }
  }

  /** One unwritten block, evicted between the two reads: it is counted twice. */
  lemma {:induction false} TornCountFails(b: BlockId, data: seq<byte>)
    ensures var s := Store(map[], map[b := Cached(data, true)], {b});
      Inv(s) && |View(s)| == 1 && |s.notInBase| + |EvictAll(s, [b]).base| == 2
  {
    var s := Store(map[], map[b := Cached(data, true)], {b});
    assert EvictAll(s, [b][..0]) == s;
    assert EvictAll(s, [b]).base == map[b := data];
    assert View(s) == map[b := data];
  }

  // ---------- the object ----------

  class CachingBlockStore {
    var base: Blocks
    var cache: map<BlockId, Cached>
    var notInBase: set<BlockId>

    ghost function State(): Store
      reads this
    {
      Store(base, cache, notInBase)
    }

    ghost predicate Valid()
      reads this
    {
      Inv(State())
    }

    constructor (base: Blocks)
      ensures Valid() && State() == Store(base, map[], {}) && View(State()) == base
    {
      this.base, cache, notInBase := base, map[], {};
    }

    /** Runs the destructor of a cached block that has been popped. */
    method DestroyBlock(b: BlockId, block: Cached)
      modifies this
      ensures base == (if block.dirty then old(base)[b := block.data] else old(base))
      ensures notInBase == old(notInBase) - {b} && cache == old(cache)
    {
      if block.dirty {
        base := base[b := block.data];
      }
      notInBase := notInBase - {b};
    }

    /** The first half of `tryCreate`; `false` if the block is cached already. */
    method BeginCreate(b: BlockId, data: seq<byte>) returns (ok: bool)
      modifies this
      ensures ok <==> b !in old(cache)
      ensures State() == if ok then Pushed(old(State()), b, data) else old(State())
    {
      if b in cache { return false; }
      cache := cache[b := Cached(data, true)];
      return true;
    }

    /** The second half of `tryCreate`. */
    method EndCreate(b: BlockId)
      modifies this
      ensures State() == Listed(old(State()), b)
    {
      notInBase := notInBase + {b};
    }

    /** Both halves with nothing in between. */
    method TryCreate(b: BlockId, data: seq<byte>) returns (ok: bool)
      requires Valid()
      modifies this
      ensures State() == Step(old(State()), Create(b, data)) && Flag(ok) == Output(old(State()), Create(b, data))
      ensures old(FreshId(State(), b)) ==>
        && Valid() && (ok <==> b !in old(View(State())))
        && View(State()) == if ok then old(View(State()))[b := data] else old(View(State()))
    {
      if FreshId(State(), b) {
        StepRefines(State(), Create(b, data));
      }
      ok := BeginCreate(b, data);
      if ok {
        EndCreate(b);
      }
    }

    /** The exception is unreachable: `existed` says exactly whether the block was visible, and it is gone afterwards. */
    method RemoveBlock(b: BlockId) returns (existed: bool)
      requires Valid()
      modifies this
      ensures Valid() && State() == Step(old(State()), Remove(b))
      ensures existed <==> b in old(View(State()))
      ensures View(State()) == old(View(State())) - {b}
    {
      StepRefines(State(), Remove(b));
      if b in cache {
        var block := cache[b];
        cache := cache - {b};
        if b !in notInBase {
          var existedInBase := b in base;
          base := base - {b};
          assert existedInBase;
        }
        DestroyBlock(b, block.(dirty := false));
        return true;
      }
      existed := b in base;
      base := base - {b};
    }

    method Load(b: BlockId) returns (r: Option<seq<byte>>)
      requires Valid()
      modifies this
      ensures Valid() && State() == Step(old(State()), Get(b)) && View(State()) == old(View(State()))
      ensures r == if b in View(State()) then Some(View(State())[b]) else None
    {
      StepRefines(State(), Get(b));
      if b in cache { return Some(cache[b].data); }
      if b !in base { return None; }
      cache := cache[b := Cached(base[b], false)];
      return Some(base[b]);
    }

    method StoreBlock(b: BlockId, data: seq<byte>)
      requires Valid()
      modifies this
      ensures Valid() && State() == Step(old(State()), Put(b, data))
      ensures View(State()) == old(View(State()))[b := data]
    {
      StepRefines(State(), Put(b, data));
      if b in cache {
        cache := cache[b := Cached(data, true)];
      } else {
        base := base[b := data];
        cache := cache[b := Cached(data, false)];
      }
    }

    method EvictBlock(b: BlockId)
      requires Valid() && b in cache
      modifies this
      ensures Valid() && State() == Step(old(State()), Evict(b))
      ensures View(State()) == old(View(State())) && cache == old(cache) - {b}
    {
      StepRefines(State(), Evict(b));
      var block := cache[b];
      cache := cache - {b};
      DestroyBlock(b, block);
    }

    /** Evicting everything makes the base store equal to the view. */
    method Flush()
      requires Valid()
      modifies this
      ensures Valid() && cache == map[] && notInBase == {}
      ensures base == old(View(State())) && View(State()) == base
    {
      while cache.Keys != {}
        invariant Valid() && View(State()) == old(View(State()))
        decreases |cache|
      {
        var b :| b in cache.Keys;
        EvictBlock(b);
      }
      assert cache == map[];
      EmptyCache(State());
    }

    method NumBlocks() returns (n: nat)
      requires Valid()
      ensures n == |View(State())|
    {
      CountsAdd(State());
      n := |notInBase| + |base|;
    }

    /** The callback runs once for every visible block: first the unwritten ones, then those of the base store. */
    method ForEachBlock() returns (visited: seq<BlockId>)
      requires Valid()
      ensures multiset(visited) == multiset(View(State()).Keys)
    {
      CountsAdd(State());
      var first := Enumerate(notInBase);
      var second := Enumerate(base.Keys);
      visited := first + second;
      assert multiset(View(State()).Keys) == multiset(notInBase) + multiset(base.Keys);
    }
  }
}
