/**
 What every run of the Left-Right machine keeps: exclusion between `readFunc`
 and `writeFunc`, exact counters, linearizable reads, atomic writes and a safe
 teardown.
 */
module LeftRightProofs {
  import opened Runs
  import opened LeftRight

  /** The value produced by a sequence of writes. */
  function Fold<T>(x0: T, fs: seq<T -> T>): T {
    if fs == [] then x0 else fs[|fs| - 1](Fold(x0, fs[..|fs| - 1]))
  }

  /** The readers a counter stands for. */
  function Holders(readers: map<int, Reader>, i: Index): set<int> {
    set r | r in readers && readers[r].Holds(i)
  }

  predicate CountersExact<T>(s: State<T>) {
    && s.counters.At(0) == |Holders(s.readers, 0)|
    && s.counters.At(1) == |Holders(s.readers, 1)|
  }

  /** Instance `d` has no reader that came in through counter `c`. */
  predicate Drained<T>(s: State<T>, c: Index, d: Index) {
    forall r | r in s.readers && s.readers[r].Reading? :: !(s.readers[r].c == c && s.readers[r].d == d)
  }

  predicate Unread<T>(s: State<T>, d: Index) {
    forall r | r in s.readers && s.readers[r].Reading? :: s.readers[r].d != d
  }

  /** Which readers can still be on the background instance, for every position of the writer. */
  predicate Exclusion<T>(s: State<T>) {
    match s.writer
    case Load3(_, _) => true
    case Wait3(_, _, c) => c == s.fgCounter
    case Switch4(_, _, c) => c == s.fgCounter && Drained(s, Other(c), Other(s.fgData))
    case Wait5(_, _, c) => c == s.fgCounter && Drained(s, c, Other(s.fgData))
    case _ => Unread(s, Other(s.fgData))
  }

  /** The writer's local copy of the foreground index is current whenever it writes through it. */
  predicate WriterLocal<T>(s: State<T>) {
    s.writer.Writing1? || s.writer.Recover1? || s.writer.Writing6? || s.writer.Recover6? ==> s.writer.d == s.fgData
  }

  /** What the two instances hold, for every position of the writer. */
  ghost predicate Contents<T>(x0: T, s: State<T>) {
    var n := |s.history|;
    var now := Fold(x0, s.history);
    && s.data.At(s.fgData) == now
    && match s.writer
       case Writing1(_, d, was) => d == s.fgData && was == now
       case Recover1(d) => d == s.fgData
       case Recover6(d) => d == s.fgData
       case Switch2(f, d) => d == s.fgData && s.data.At(Other(d)) == f(now)
       case Load3(f, d) => Behind(x0, s, f, d)
       case Wait3(f, d, _) => Behind(x0, s, f, d)
       case Switch4(f, d, _) => Behind(x0, s, f, d)
       case Wait5(f, d, _) => Behind(x0, s, f, d)
       case Writing6(f, d, was) =>
         d == s.fgData && n > 0 && s.history[n - 1] == f && was == Fold(x0, s.history[..n - 1])
       case _ => s.data.At(Other(s.fgData)) == now
  }

  /** The background instance lacks exactly the last write, which is `f`. */
  ghost predicate Behind<T>(x0: T, s: State<T>, f: T -> T, d: Index) {
    var n := |s.history|;
    && d == s.fgData
    && n > 0 && s.history[n - 1] == f
    && s.data.At(Other(d)) == Fold(x0, s.history[..n - 1])
  }

  /** Every reader's instance is the result of the first `seen` writes. */
  ghost predicate Snapshots<T>(x0: T, s: State<T>) {
    forall r | r in s.readers && s.readers[r].Reading? ::
      && s.readers[r].seen <= |s.history|
      && s.data.At(s.readers[r].d) == Fold(x0, s.history[..s.readers[r].seen])
  }

  predicate NoneInside<T>(s: State<T>, c: Index) {
    forall r | r in s.readers && s.readers[r].PassedCheck() :: s.readers[r].c != c
  }

  predicate WriterOutside<T>(s: State<T>) {
    s.writer.Free? || s.writer.Locked? || s.writer.Done?
  }

  predicate Teardown<T>(s: State<T>) {
    && (!s.destructor.NotStarted? ==> s.inDestruction)
    && (s.destructor.WritersGone? || s.destructor.FirstSeenZero? || s.destructor.Finished? ==> WriterOutside(s))
    && (s.destructor.FirstSeenZero? ==> NoneInside(s, 0))
    && (s.destructor.Finished? ==> NoneInside(s, 0) && NoneInside(s, 1))
  }

  ghost predicate Inv<T>(x0: T, s: State<T>) {
    CountersExact(s) && Exclusion(s) && Contents(x0, s) && Snapshots(x0, s) && Teardown(s)
  }

  // ---------- counters ----------

  lemma {:induction false} HoldersSet(readers: map<int, Reader>, r: int, pc: Reader, i: Index)
    ensures Holders(readers[r := pc], i) == (if pc.Holds(i) then Holders(readers, i) + {r} else Holders(readers, i) - {r})
    ensures |Holders(readers[r := pc], i)| == |Holders(readers, i)| + Bit(pc.Holds(i)) - Bit(r in Holders(readers, i))
  {
    assert Holders(readers[r := pc], i) == (if pc.Holds(i) then Holders(readers, i) + {r} else Holders(readers, i) - {r});
  }

  lemma {:induction false} HoldersDrop(readers: map<int, Reader>, r: int, i: Index)
    ensures Holders(readers - {r}, i) == Holders(readers, i) - {r}
    ensures |Holders(readers - {r}, i)| == |Holders(readers, i)| - Bit(r in Holders(readers, i))
  {
  }

  function Bit(b: bool): int {
    if b then 1 else 0
  }

  lemma {:induction false} CounterMove(readers: map<int, Reader>, k: Pair<int>, r: int, pc: Reader, i: Index)
    requires r in readers && k.At(i) == |Holders(readers, i)|
    ensures |Holders(readers[r := pc], i)| == k.At(i) + Bit(pc.Holds(i)) - Bit(readers[r].Holds(i))
  {
    HoldersSet(readers, r, pc, i);
  }

  lemma {:induction false} ReaderCountersKept<T>(s: State<T>, e: Step<T>)
    requires CountersExact(s) && Enabled(s, e) && IsReaderStep(e)
    ensures CountersExact(ReaderStep(s, e))
  {
    var t := ReaderStep(s, e);
    if e.RLoad? {
      HoldersSet(s.readers, e.r, t.readers[e.r], 0);
      HoldersSet(s.readers, e.r, t.readers[e.r], 1);
    } else if e.RDecrement? {
      HoldersDrop(s.readers, e.r, 0);
      HoldersDrop(s.readers, e.r, 1);
    } else if !e.RObserve? {
      CounterMove(s.readers, s.counters, e.r, t.readers[e.r], 0);
      CounterMove(s.readers, s.counters, e.r, t.readers[e.r], 1);
      assert t.readers == s.readers[e.r := t.readers[e.r]];
    }
  }

  lemma {:induction false} CountersKept<T>(s: State<T>, e: Step<T>)
    requires CountersExact(s) && Enabled(s, e)
    ensures CountersExact(Apply(s, e))
  {
    if IsReaderStep(e) {
      ReaderCountersKept(s, e);
    } else {
      OnlyReadersArrive(s, e);
    }
  }

  /** The writer and the destructor never touch the reader counters. */
  lemma {:induction false} OnlyReadersArrive<T>(s: State<T>, e: Step<T>)
    requires !IsReaderStep(e)
    ensures Apply(s, e).counters == s.counters && Apply(s, e).readers == s.readers
  {
  }

  /** A counter seen at zero has no reader behind it. */
  lemma {:induction false} ZeroMeansNobody<T>(s: State<T>, c: Index)
    requires CountersExact(s) && s.counters.At(c) == 0
    ensures NoneInside(s, c)
  {
    assert Holders(s.readers, c) == {};
    forall r | r in s.readers && s.readers[r].PassedCheck() ensures s.readers[r].c != c {
      assert r !in Holders(s.readers, c);
    }
  }

  // ---------- the other parts ----------

  lemma {:induction false} ExclusionKept<T>(s: State<T>, e: Step<T>)
    requires CountersExact(s) && Exclusion(s) && Enabled(s, e)
    ensures Exclusion(Apply(s, e))
  {
    if IsReaderStep(e) {
      ReadersKeepExclusion(s, e);
    } else if e.WPoll? && s.counters.At(Other(s.writer.c)) == 0 {
      ZeroMeansNobody(s, Other(s.writer.c));
    }
  }

  /** A reader enters the foreground instance only. */
  lemma {:induction false} ReadersKeepExclusion<T>(s: State<T>, e: Step<T>)
    requires Exclusion(s) && Enabled(s, e) && IsReaderStep(e)
    ensures Exclusion(ReaderStep(s, e))
  {
  }

  lemma {:induction false} ContentsKept<T>(x0: T, s: State<T>, e: Step<T>)
    requires Contents(x0, s) && Enabled(s, e)
    ensures Contents(x0, Apply(s, e))
  {
    if IsReaderStep(e) {
      ReadersKeepContents(x0, s, e);
    } else if e.WSwitchData? {
      SwitchKeepsContents(x0, s);
    }
  }

  lemma {:induction false} ReadersKeepContents<T>(x0: T, s: State<T>, e: Step<T>)
    requires Contents(x0, s) && Enabled(s, e) && IsReaderStep(e)
    ensures Contents(x0, ReaderStep(s, e))
  {
  }

  /** Step 2 makes the write take effect: the other instance becomes the foreground and holds one write more. */
  lemma {:induction false} SwitchKeepsContents<T>(x0: T, s: State<T>)
    requires Contents(x0, s) && s.writer.Switch2?
    ensures Contents(x0, WriterStep(s, WSwitchData))
  {
  }

  lemma {:induction false} SnapshotsKept<T>(x0: T, s: State<T>, e: Step<T>)
    requires Inv(x0, s) && Enabled(s, e)
    ensures Snapshots(x0, Apply(s, e))
  {
    if IsReaderStep(e) {
      ReadersKeepSnapshots(x0, s, e);
    } else {
      var t := Apply(s, e);
      OnlyReadersArrive(s, e);
      forall r | r in t.readers && t.readers[r].Reading?
        ensures t.readers[r].seen <= |t.history|
        ensures t.data.At(t.readers[r].d) == Fold(x0, t.history[..t.readers[r].seen])
      {
        ExclusiveStep(s, e, r);
        assert t.history[..t.readers[r].seen] == s.history[..t.readers[r].seen];
      }
    }
  }

  lemma {:induction false} ReadersKeepSnapshots<T>(x0: T, s: State<T>, e: Step<T>)
    requires Snapshots(x0, s) && Contents(x0, s) && Enabled(s, e) && IsReaderStep(e)
    ensures Snapshots(x0, ReaderStep(s, e))
  {
    assert s.history[..|s.history|] == s.history;
  }

  lemma {:induction false} TeardownKept<T>(s: State<T>, e: Step<T>)
    requires CountersExact(s) && Teardown(s) && Enabled(s, e)
    ensures Teardown(Apply(s, e))
  {
    if e.DPoll? {
      if s.counters.At(0) == 0 { ZeroMeansNobody(s, 0); }
      if s.counters.At(1) == 0 { ZeroMeansNobody(s, 1); }
    }
  }

  lemma {:induction false} InvKept<T>(x0: T, s: State<T>, e: Step<T>)
    requires Inv(x0, s) && Enabled(s, e)
    ensures Inv(x0, Apply(s, e))
  {
    CountersKept(s, e);
    ExclusionKept(s, e);
    ContentsKept(x0, s, e);
    SnapshotsKept(x0, s, e);
    TeardownKept(s, e);
  }

  // ---------- main results, over every run ----------

  lemma {:induction false} Reachable<T(!new)>(x0: T, ss: seq<State<T>>, es: seq<Step<T>>, n: nat)
    requires IsRun(M(x0), ss, es) && n < |ss|
    ensures Inv(x0, ss[n])
  {
    forall s, e | Inv(x0, s) && Enabled(s, e) ensures Inv(x0, Apply(s, e)) {
      InvKept(x0, s, e);
    }
    Kept(M(x0), ss, es, s => Inv(x0, s), e => true, 0, n);
  }

  /** The instance `writeFunc`, or the recovery after it threw, is working on. */
  predicate WritesTo<T>(s: State<T>, i: Index) {
    match s.writer
    case Writing1(_, d, _) => i == Other(d)
    case Recover1(d) => i == Other(d)
    case Writing6(_, d, _) => i == Other(d)
    case Recover6(d) => i == Other(d)
    case _ => false
  }

  lemma {:induction false} ExclusiveStep<T>(s: State<T>, e: Step<T>, r: int)
    requires Exclusion(s) && WriterLocal(s) && Enabled(s, e) && r in s.readers && s.readers[r].Reading?
    ensures !WritesTo(s, s.readers[r].d)
    ensures Apply(s, e).data.At(s.readers[r].d) == s.data.At(s.readers[r].d)
  {
  }

  /** No reader is ever inside `readFunc` on the instance being written, and no step changes an instance being read. */
  lemma {:induction false} WriteExcludesRead<T(!new)>(x0: T, ss: seq<State<T>>, es: seq<Step<T>>, n: nat, r: int)
    requires IsRun(M(x0), ss, es) && n < |es|
    requires r in ss[n].readers && ss[n].readers[r].Reading?
    ensures !WritesTo(ss[n], ss[n].readers[r].d)
    ensures ss[n + 1].data.At(ss[n].readers[r].d) == ss[n].data.At(ss[n].readers[r].d)
  {
    Reachable(x0, ss, es, n);
    assert StepAt(M(x0), ss, es, n);
    ExclusiveStep(ss[n], es[n], r);
  }

  /** Both counters equal the number of readers between increment and decrement, in every reachable state. */
  lemma {:induction false} CountersCountReaders<T(!new)>(x0: T, ss: seq<State<T>>, es: seq<Step<T>>, n: nat, i: Index)
    requires IsRun(M(x0), ss, es) && n < |ss|
    ensures ss[n].counters.At(i) == |Holders(ss[n].readers, i)|
  {
    Reachable(x0, ss, es, n);
    if i == 0 {} else {}
  }

  lemma {:induction false} HistoryGrows<T(!new)>(x0: T, ss: seq<State<T>>, es: seq<Step<T>>, i: nat, j: nat)
    requires IsRun(M(x0), ss, es) && i <= j < |ss|
    ensures ss[i].history <= ss[j].history
  {
    var h := ss[i].history;
    Kept(M(x0), ss, es, (s: State<T>) => h <= s.history, e => true, i, j);
  }

  /** The labels from `i` on belong to one read of `r`: it begins at `i` and is not over before `j`. */
  ghost predicate SameRead<T(!new)>(es: seq<Step<T>>, i: nat, j: nat, r: int) {
    i < j < |es| && es[i] == RLoad(r) && forall m | i < m < j :: es[m] != RDecrement(r)
  }

  predicate FreshSnapshot<T>(s: State<T>, r: int, n: nat) {
    n <= |s.history| && r in s.readers && (s.readers[r].Reading? ==> s.readers[r].seen >= n)
  }

  lemma {:induction false} FreshStep<T>(s: State<T>, e: Step<T>, r: int, n: nat)
    requires Enabled(s, e) && e != RDecrement(r) && FreshSnapshot(s, r, n)
    ensures FreshSnapshot(Apply(s, e), r, n)
  {
  }

  /** From its beginning at `i` on, the read of `r` only takes snapshots at least as new as the history was at `i`. */
  lemma {:induction false} SnapshotIsFresh<T(!new)>(x0: T, ss: seq<State<T>>, es: seq<Step<T>>, i: nat, j: nat, r: int)
    requires IsRun(M(x0), ss, es) && SameRead(es, i, j, r)
    ensures FreshSnapshot(ss[j], r, |ss[i].history|)
  {
    var n := |ss[i].history|;
    assert StepAt(M(x0), ss, es, i);
    forall s, e: Step<T> | FreshSnapshot(s, r, n) && e != RDecrement(r) && Enabled(s, e) ensures FreshSnapshot(Apply(s, e), r, n) {
      FreshStep(s, e, r, n);
    }
    Kept(M(x0), ss, es, s => FreshSnapshot(s, r, n), (e: Step<T>) => e != RDecrement(r), i + 1, j);
  }

  /**
   Reads are linearizable: what `readFunc` finds is the result of a prefix of
   the writes, and that prefix contains every write that had taken effect when
   the read began.
   */
  lemma {:induction false} ReadSeesPrefix<T(!new)>(x0: T, ss: seq<State<T>>, es: seq<Step<T>>, i: nat, j: nat, r: int, v: T)
    returns (k: nat)
    requires IsRun(M(x0), ss, es) && SameRead(es, i, j, r) && es[j] == RObserve(r, v)
    ensures ss[i].history <= ss[j].history
    ensures |ss[i].history| <= k <= |ss[j].history|
    ensures v == Fold(x0, ss[j].history[..k])
  {
    Reachable(x0, ss, es, j);
    assert StepAt(M(x0), ss, es, j);
    SnapshotIsFresh(x0, ss, es, i, j, r);
    HistoryGrows(x0, ss, es, i, j);
    k := ss[j].readers[r].seen;
  }

  ghost predicate Frozen<T>(x0: T, s: State<T>, r: int, pc: Reader, v: T) {
    Inv(x0, s) && r in s.readers && s.readers[r] == pc && pc.Reading? && s.data.At(pc.d) == v
  }

  lemma {:induction false} FrozenStep<T>(x0: T, s: State<T>, e: Step<T>, r: int, pc: Reader, v: T)
    requires Frozen(x0, s, r, pc, v) && Enabled(s, e) && e != RFinish(r)
    ensures Frozen(x0, Apply(s, e), r, pc, v)
  {
    InvKept(x0, s, e);
    ExclusiveStep(s, e, r);
    StillReading(s, e, r);
  }

  lemma {:induction false} StillReading<T>(s: State<T>, e: Step<T>, r: int)
    requires Enabled(s, e) && e != RFinish(r) && r in s.readers && s.readers[r].Reading?
    ensures r in Apply(s, e).readers && Apply(s, e).readers[r] == s.readers[r]
  {
  }

  /** One `readFunc` call sees one value, however often it looks and whatever the others do. */
  lemma {:induction false} ReadIsStable<T(!new)>(x0: T, ss: seq<State<T>>, es: seq<Step<T>>, j: nat, k: nat, r: int, v: T, w: T)
    requires IsRun(M(x0), ss, es) && j < k < |es|
    requires es[j] == RObserve(r, v) && es[k] == RObserve(r, w)
    requires forall m | j <= m < k :: es[m] != RFinish(r)
    ensures v == w
  {
    Reachable(x0, ss, es, j);
    assert StepAt(M(x0), ss, es, j);
    assert StepAt(M(x0), ss, es, k);
    var pc := ss[j].readers[r];
    forall s, e | Frozen(x0, s, r, pc, v) && e != RFinish(r) && Enabled(s, e) ensures Frozen(x0, Apply(s, e), r, pc, v) {
      FrozenStep(x0, s, e, r, pc, v);
    }
    Kept(M(x0), ss, es, s => Frozen(x0, s, r, pc, v), (e: Step<T>) => e != RFinish(r), j, k);
  }

  /** Whenever no write is running both instances hold the result of all writes that took effect. */
  lemma {:induction false} IdleInstancesAgree<T(!new)>(x0: T, ss: seq<State<T>>, es: seq<Step<T>>, n: nat)
    requires IsRun(M(x0), ss, es) && n < |ss| && ss[n].writer.Free?
    ensures ss[n].data.At(0) == ss[n].data.At(1) == Fold(x0, ss[n].history)
  {
    Reachable(x0, ss, es, n);
  }

  /** Between lock and unlock: what the write of `f` has done to the history so far. */
  ghost predicate WriteProgress<T>(s: State<T>, before: seq<T -> T>, f: T -> T) {
    match s.writer
    case Free => false
    case Locked(g) => g == f && s.history == before
    case Writing1(g, _, _) => g == f && s.history == before
    case Switch2(g, _) => g == f && s.history == before
    case Recover1(_) => s.history == before
    case Done(o) => s.history == (if o.Refused? || o.ThrewFirst? then before else before + [f])
    case _ => s.history == before + [f]
  }

  lemma {:induction false} LockStep<T>(s: State<T>, f: T -> T)
    requires Enabled(s, WLock(f))
    ensures WriteProgress(Apply(s, WLock(f)), s.history, f)
  {
  }

  lemma {:induction false} WriteStep<T>(s: State<T>, e: Step<T>, before: seq<T -> T>, f: T -> T)
    requires Enabled(s, e) && !e.WUnlock? && WriteProgress(s, before, f)
    ensures WriteProgress(Apply(s, e), before, f)
  {
  }

  /**
   A write takes effect wholly or not at all, exactly once: when the mutex is
   released the history has grown by `f` unless the write was refused or the
   first call of `writeFunc` threw, and both instances hold the result.
   */
  lemma {:induction false} WriteIsAtomic<T(!new)>(x0: T, ss: seq<State<T>>, es: seq<Step<T>>, i: nat, j: nat, f: T -> T)
    requires IsRun(M(x0), ss, es) && i < j < |es| && es[i] == WLock(f) && es[j].WUnlock?
    requires forall m | i < m < j :: !es[m].WUnlock?
    ensures ss[j].writer.Done?
    ensures var o := ss[j].writer.o;
      ss[j].history == (if o.Refused? || o.ThrewFirst? then ss[i].history else ss[i].history + [f])
    ensures ss[j].data.At(0) == ss[j].data.At(1) == Fold(x0, ss[j].history)
  {
    var before := ss[i].history;
    assert StepAt(M(x0), ss, es, i);
    LockStep(ss[i], f);
    forall s, e: Step<T> | WriteProgress(s, before, f) && !e.WUnlock? && Enabled(s, e) ensures WriteProgress(Apply(s, e), before, f) {
      WriteStep(s, e, before, f);
    }
    Kept(M(x0), ss, es, s => WriteProgress(s, before, f), (e: Step<T>) => !e.WUnlock?, i + 1, j);
    assert StepAt(M(x0), ss, es, j);
    Reachable(x0, ss, es, j);
  }

  /**
   Once the destructor is through, no reader is or ever will be between the
   flag check and the end of `readFunc`, every later check throws, and no
   `writeFunc` is or ever will be running.
   */
  lemma {:induction false} NobodyAfterTeardown<T(!new)>(x0: T, ss: seq<State<T>>, es: seq<Step<T>>, i: nat, j: nat)
    requires IsRun(M(x0), ss, es) && i <= j < |ss| && ss[i].destructor.Finished?
    ensures forall r | r in ss[j].readers :: !ss[j].readers[r].PassedCheck()
    ensures forall d: Index :: !WritesTo(ss[j], d)
    ensures j < |es| && es[j].RCheck? ==> es[j].r in ss[j + 1].readers && ss[j + 1].readers[es[j].r].Leaving?
  {
    Kept(M(x0), ss, es, (s: State<T>) => s.destructor.Finished?, e => true, i, j);
    Reachable(x0, ss, es, j);
    if j < |es| {
      assert StepAt(M(x0), ss, es, j);
    }
  }

  /** The readers that use counter `i`, including those that have only loaded its index so far. */
  function Users(readers: map<int, Reader>, i: Index): set<int> {
    set r | r in readers && readers[r].c == i
  }

  predicate Waiting<T>(s: State<T>) {
    s.writer.Wait3? || s.writer.Wait5?
  }

  lemma {:induction false} NoNewUsers<T>(s: State<T>, e: Step<T>)
    requires Exclusion(s) && Waiting(s) && Enabled(s, e)
    ensures Users(Apply(s, e).readers, Other(s.writer.c)) <= Users(s.readers, Other(s.writer.c))
  {
  }

  /** While the writer spins on a counter nobody new can come to use it: readers cannot starve the writer. */
  lemma {:induction false} WaitOnlyDrains<T(!new)>(x0: T, ss: seq<State<T>>, es: seq<Step<T>>, i: nat, j: nat)
    requires IsRun(M(x0), ss, es) && i <= j < |ss| && Waiting(ss[i])
    requires forall k | i <= k <= j :: ss[k].writer == ss[i].writer
    ensures Users(ss[j].readers, Other(ss[i].writer.c)) <= Users(ss[i].readers, Other(ss[i].writer.c))
    decreases j
  {
    if i < j {
      WaitOnlyDrains(x0, ss, es, i, j - 1);
      Reachable(x0, ss, es, j - 1);
      assert StepAt(M(x0), ss, es, j - 1);
      NoNewUsers(ss[j - 1], es[j - 1]);
    }
  }
}
