/** What every interleaving of the shared-handle store keeps, and when it behaves like a plain map. */
module SharedBlocksProofs {
  import opened Bytes
  import opened Runs
  import opened SharedBlocks

  // ---------- reference counts ----------

  function RefsTo(refs: map<nat, Ref>, k: BlockId): set<nat> {
    set r | r in refs && refs[r].key == k
  }

  /** Each open block's count is the number of live handles of its id, and there is at least one. */
  predicate CountsExact(s: State) {
    forall k | k in s.t.open :: s.t.open[k].refCount == |RefsTo(s.refs, k)| && s.t.open[k].refCount > 0
  }

  /** Every live handle points at the block that is open under its id. */
  predicate PointsAtOpen(s: State) {
    forall r | r in s.refs :: s.refs[r].key in s.t.open && s.t.open[s.refs[r].key].res.uid == s.refs[r].uid
  }

  /** Open blocks have different identities, also from blocks handed to a remover. */
  predicate Identities(t: Table) {
    && (forall k | k in t.open :: t.open[k].res.uid < t.nextUid)
    && (forall k, k' | k in t.open && k' in t.open && k != k' :: t.open[k].res.uid != t.open[k'].res.uid)
    && (forall k | k in t.toRemove && t.toRemove[k].Fulfilled? :: t.toRemove[k].res.uid < t.nextUid)
    && (forall k, k' | k in t.toRemove && t.toRemove[k].Fulfilled? && k' in t.open :: t.toRemove[k].res.uid != t.open[k'].res.uid)
  }

  predicate RefsOk(s: State) {
    CountsExact(s) && PointsAtOpen(s) && Identities(s.t)
  }

  predicate Owns(rm: Remover, k: BlockId) {
    (rm.Dropping? || rm.Awaiting?) && rm.key == k
  }

  /** A remover that has not dropped its handle yet still has it, and nobody can have fulfilled its promise. */
  predicate DroppersOk(s: State) {
    forall th | th in s.removers && s.removers[th].Dropping? ::
      && s.removers[th].ref in s.refs && s.refs[s.removers[th].ref].removing
      && s.refs[s.removers[th].ref].key == s.removers[th].key
      && s.removers[th].key in s.t.toRemove && s.t.toRemove[s.removers[th].key].Waiting?
  }

  /** Every promise belongs to exactly one remover, and every remover that waits has its promise. */
  predicate PromisesOk(toRemove: map<BlockId, Promise>, removers: map<nat, Remover>) {
    && (forall k | k in toRemove :: toRemove[k].owner in removers && Owns(removers[toRemove[k].owner], k))
    && (forall th | th in removers && (removers[th].Dropping? || removers[th].Awaiting?) ::
          removers[th].key in toRemove && toRemove[removers[th].key].owner == th)
  }

  predicate RemoversOk(s: State) {
    DroppersOk(s) && PromisesOk(s.t.toRemove, s.removers)
  }

  predicate Inv(s: State) {
    RefsOk(s) && RemoversOk(s)
  }

  lemma {:induction false} RefsAdded(refs: map<nat, Ref>, r: nat, ref: Ref, k: BlockId)
    requires r !in refs
    ensures |RefsTo(refs[r := ref], k)| == |RefsTo(refs, k)| + if ref.key == k then 1 else 0
  {
    assert RefsTo(refs[r := ref], k) == if ref.key == k then RefsTo(refs, k) + {r} else RefsTo(refs, k);
  }

  lemma {:induction false} RefsDropped(refs: map<nat, Ref>, r: nat, k: BlockId)
    requires r in refs
    ensures |RefsTo(refs - {r}, k)| == |RefsTo(refs, k)| - if refs[r].key == k then 1 else 0
    ensures RefsTo(refs - {r}, k) == RefsTo(refs, k) - {r}
  {
  }

  lemma {:induction false} NoRefsToClosed(s: State, k: BlockId)
    requires PointsAtOpen(s) && k !in s.t.open
    ensures RefsTo(s.refs, k) == {}
  {
  }

  /** The two ways a handle comes about: one more on an open block, or the first on a new one. */
  predicate OneMore(t: Table, t': Table, k: BlockId) {
    && k in t'.open && t'.open == t.open[k := t'.open[k]] && t'.toRemove == t.toRemove
    && if k in t.open
       then t'.open[k].refCount == t.open[k].refCount + 1 && t'.open[k].res.uid == t.open[k].res.uid && t'.nextUid == t.nextUid
       else t'.open[k].refCount == 1 && t'.open[k].res.uid == t.nextUid && t'.nextUid == t.nextUid + 1
  }

  lemma {:induction false} OneMoreIdentities(t: Table, t': Table, k: BlockId)
    requires Identities(t) && OneMore(t, t', k)
    ensures Identities(t')
  {
  }

  lemma {:induction false} OneMorePoints(s: State, t: Table, r: nat, k: BlockId)
    requires PointsAtOpen(s) && r !in s.refs && OneMore(s.t, t, k)
    ensures PointsAtOpen(AddRef(s, t, r, k))
  {
  }

  lemma {:induction false} AddRefKeepsRefs(s: State, t: Table, r: nat, k: BlockId)
    requires RefsOk(s) && r !in s.refs && OneMore(s.t, t, k)
    ensures RefsOk(AddRef(s, t, r, k))
  {
    var s' := AddRef(s, t, r, k);
    OneMoreIdentities(s.t, t, k);
    OneMorePoints(s, t, r, k);
    forall k' | k' in s'.t.open ensures s'.t.open[k'].refCount == |RefsTo(s'.refs, k')| && s'.t.open[k'].refCount > 0 {
      RefsAdded(s.refs, r, s'.refs[r], k');
      if k' !in s.t.open {
        NoRefsToClosed(s, k');
      }
    }
  }

  /** When a count is 1, the handle being dropped is the only one. */
  lemma {:induction false} LastHandle(s: State, r: nat)
    requires RefsOk(s) && r in s.refs && s.t.open[s.refs[r].key].refCount == 1
    ensures forall r' | r' in s.refs && r' != r :: s.refs[r'].key != s.refs[r].key
  {
    var all := RefsTo(s.refs, s.refs[r].key);
    assert r in all && |all - {r}| == 0;
    forall r' | r' in s.refs && r' != r ensures s.refs[r'].key != s.refs[r].key {
      assert r' !in all - {r};
    }
  }

  lemma {:induction false} ReleaseKeepsIdentities(t: Table, k: BlockId)
    requires Identities(t) && k in t.open && t.open[k].refCount > 0
    ensures Identities(ReleasedKey(t, k).0)
  {
  }

  lemma {:induction false} CountsDropped(s: State, s': State, r: nat)
    requires CountsExact(s) && r in s.refs && s'.refs == s.refs - {r}
    requires forall k | k in s'.t.open :: k in s.t.open && s'.t.open[k].refCount > 0
    requires forall k | k in s'.t.open :: s'.t.open[k].refCount == s.t.open[k].refCount - if s.refs[r].key == k then 1 else 0
    ensures CountsExact(s')
  {
    forall k | k in s'.t.open ensures s'.t.open[k].refCount == |RefsTo(s'.refs, k)| {
      RefsDropped(s.refs, r, k);
    }
  }

  /** A block that stays open. */
  lemma {:induction false} ReleaseOne(s: State, r: nat)
    requires RefsOk(s) && r in s.refs && s.t.open[s.refs[r].key].refCount > 1
    ensures RefsOk(DropRef(s, r))
  {
    ReleaseKeepsIdentities(s.t, s.refs[r].key);
    CountsDropped(s, DropRef(s, r), r);
  }

  lemma {:induction false} PointsWithout(s: State, s': State, r: nat)
    requires PointsAtOpen(s) && r in s.refs && s'.refs == s.refs - {r} && s'.t.open == s.t.open - {s.refs[r].key}
    requires forall r' | r' in s.refs && r' != r :: s.refs[r'].key != s.refs[r].key
    ensures PointsAtOpen(s')
  {
  }

  lemma {:induction false} ReleaseLast(s: State, r: nat)
    requires RefsOk(s) && r in s.refs && s.t.open[s.refs[r].key].refCount == 1 && ReleasedKey(s.t, s.refs[r].key).1 == Released
    ensures RefsOk(DropRef(s, r))
  {
    var s' := DropRef(s, r);
    ReleaseKeepsIdentities(s.t, s.refs[r].key);
    LastHandle(s, r);
    assert s'.t.open == s.t.open - {s.refs[r].key} && s'.refs == s.refs - {r};
    CountsDropped(s, s', r);
    PointsWithout(s, s', r);
  }

  lemma {:induction false} DropRefKeepsRefs(s: State, r: nat)
    requires RefsOk(s) && r in s.refs
    ensures RefsOk(DropRef(s, r))
  {
    if s.t.open[s.refs[r].key].refCount > 1 {
      ReleaseOne(s, r);
    } else if ReleasedKey(s.t, s.refs[r].key).1 == Released {
      ReleaseLast(s, r);
    }
  }

  /** Changing the contents of open blocks, the base store or the list of waiting removers does not matter to the counts. */
  lemma {:induction false} SameHandles(s: State, s': State)
    requires RefsOk(s) && s'.t.open.Keys == s.t.open.Keys && s'.t.nextUid == s.t.nextUid
    requires forall k | k in s.t.open :: s'.t.open[k].refCount == s.t.open[k].refCount && s'.t.open[k].res.uid == s.t.open[k].res.uid
    requires forall k | k in s'.t.toRemove && s'.t.toRemove[k].Fulfilled? :: k in s.t.toRemove && s.t.toRemove[k] == s'.t.toRemove[k]
    requires s'.refs.Keys == s.refs.Keys && forall r | r in s.refs :: s'.refs[r].key == s.refs[r].key && s'.refs[r].uid == s.refs[r].uid
    ensures RefsOk(s')
  {
    SameIdentities(s.t, s'.t);
    SamePoints(s, s');
    forall k | k in s'.t.open ensures s'.t.open[k].refCount == |RefsTo(s'.refs, k)| && s'.t.open[k].refCount > 0 {
      assert RefsTo(s'.refs, k) == RefsTo(s.refs, k);
    }
  }

  lemma {:induction false} SamePoints(s: State, s': State)
    requires PointsAtOpen(s) && s'.t.open.Keys == s.t.open.Keys
    requires forall k | k in s.t.open :: s'.t.open[k].res.uid == s.t.open[k].res.uid
    requires s'.refs.Keys == s.refs.Keys && forall r | r in s.refs :: s'.refs[r].key == s.refs[r].key && s'.refs[r].uid == s.refs[r].uid
    ensures PointsAtOpen(s')
  {
  }

  lemma {:induction false} SameIdentities(t: Table, t': Table)
    requires Identities(t) && t'.open.Keys == t.open.Keys && t'.nextUid == t.nextUid
    requires forall k | k in t.open :: t'.open[k].res.uid == t.open[k].res.uid
    requires forall k | k in t'.toRemove && t'.toRemove[k].Fulfilled? :: k in t.toRemove && t.toRemove[k] == t'.toRemove[k]
    ensures Identities(t')
  {
  }

  lemma {:induction false} AddKeepsRefs(s: State, r: nat)
    requires RefsOk(s) && Enabled(s, CreateAdd(r))
    ensures RefsOk(OpenStep(s, CreateAdd(r)))
  {
    var c, s' := s.creators[r], s.(creators := s.creators - {r});
    SameHandles(s, s');
    if c.key !in s.t.open {
      AddRefKeepsRefs(s', Added(s.t, c.key, c.data), r, c.key);
    }
  }

  lemma {:induction false} LoadKeepsRefs(s: State, r: nat, k: BlockId)
    requires RefsOk(s) && Enabled(s, Load(r, k))
    ensures RefsOk(OpenStep(s, Load(r, k)))
  {
    if Loaded(s.t, k).1 {
      AddRefKeepsRefs(s, Loaded(s.t, k).0, r, k);
    }
  }

  lemma {:induction false} OverwriteKeepsRefs(s: State, r: nat, k: BlockId, data: seq<byte>)
    requires RefsOk(s) && Enabled(s, Overwrite(r, k, data))
    ensures RefsOk(OpenStep(s, Overwrite(r, k, data)))
  {
    AddRefKeepsRefs(s, OverwrittenIn(s.t, k, data), r, k);
  }

  lemma {:induction false} OpenKeepsRefs(s: State, e: Event)
    requires RefsOk(s) && Enabled(s, e) && IsOpening(e)
    ensures RefsOk(OpenStep(s, e))
  {
    match e
    case Load(r, k) => LoadKeepsRefs(s, r, k);
    case CreateCheck(_, _, _) =>
    case CreateStore(_) => SameHandles(s, OpenStep(s, e));
    case CreateAdd(r) => AddKeepsRefs(s, r);
    case Overwrite(r, k, data) => OverwriteKeepsRefs(s, r, k, data);
  }

  lemma {:induction false} UpdateKeepsRefs(s: State, r: nat, data: seq<byte>)
    requires RefsOk(s) && r in s.refs
    ensures RefsOk(Update(s, r, data))
  {
    SameHandles(s, Update(s, r, data));
  }

  lemma {:induction false} HandleKeepsRefs(s: State, e: Event)
    requires RefsOk(s) && Enabled(s, e) && (e.Write? || e.Resize? || e.Flush? || e.Release?)
    ensures RefsOk(HandleStep(s, e))
  {
    match e
    case Release(r) => DropRefKeepsRefs(s, r);
    case Write(r, offset, src) => UpdateKeepsRefs(s, r, WrittenAt(Contents(s, r), offset, src));
    case Resize(r, size) => UpdateKeepsRefs(s, r, Resized(Contents(s, r), size));
    case Flush(r) => SameHandles(s, s.(t := Flushed(s.t, s.refs[r].key)));
  }

  lemma {:induction false} RemoveKeepsRefs(s: State, e: Event)
    requires Inv(s) && Enabled(s, e)
    requires e.RemoveBegin? || e.RemoveDrop? || e.RemoveFinish? || e.LookUp? || e.Register? || e.RemoveClosed?
    ensures RefsOk(RemoveStep(s, e))
  {
    if e.RemoveDrop? {
      DropRefKeepsRefs(s, s.removers[e.thread].ref);
    } else if e.RemoveBegin? && s.refs[e.r].key in s.t.toRemove {
      DropRefKeepsRefs(s, e.r);
    } else {
      SameHandles(s, RemoveStep(s, e));
    }
  }

  // ---------- removers ----------

  /** Dropping a handle fulfils at most the promise for its key and drops no other handle. */
  lemma {:induction false} DropRefShape(s: State, r: nat)
    requires RefsOk(s) && r in s.refs
    ensures var s' := DropRef(s, r);
      && s'.removers == s.removers && s'.t.toRemove.Keys == s.t.toRemove.Keys
      && (if s'.terminated && !s.terminated then s'.refs == s.refs else s'.refs == s.refs || s'.refs == s.refs - {r})
      && (forall k | k in s.t.toRemove && k != s.refs[r].key :: s'.t.toRemove[k] == s.t.toRemove[k])
      && (s.t.open[s.refs[r].key].refCount > 1 ==> s'.t.toRemove == s.t.toRemove)
      && (forall k | k in s.t.toRemove :: s'.t.toRemove[k].owner == s.t.toRemove[k].owner)
  {
  }

  /** A promise stays unfulfilled while another handle to the block is live. */
  lemma {:induction false} OtherHandleKeepsWaiting(s: State, r: nat, r': nat)
    requires RefsOk(s) && r in s.refs && r' in s.refs && r != r' && s.refs[r].key == s.refs[r'].key
    ensures s.t.open[s.refs[r].key].refCount > 1
  {
    var all := RefsTo(s.refs, s.refs[r].key);
    assert r in all && r' in all - {r};
    assert |all| == |all - {r}| + 1;
  }

  lemma {:induction false} DropKeepsRemovers(s: State, r: nat)
    requires Inv(s) && Usable(s, r)
    ensures RemoversOk(DropRef(s, r))
  {
    var s' := DropRef(s, r);
    DropRefShape(s, r);
    forall th | th in s.removers && s.removers[th].Dropping?
      ensures s.removers[th].ref in s'.refs && s'.t.toRemove[s.removers[th].key].Waiting?
    {
      if s.removers[th].key == s.refs[r].key {
        OtherHandleKeepsWaiting(s, r, s.removers[th].ref);
      }
    }
  }

  lemma {:induction false} RemoveDropKeepsRemovers(s: State, th: nat)
    requires Inv(s) && Enabled(s, RemoveDrop(th))
    ensures RemoversOk(RemoveStep(s, RemoveDrop(th)))
  {
    DropRefShape(s, s.removers[th].ref);
    AwaitKeepsRemovers(s, DropRef(s, s.removers[th].ref), th);
  }

  lemma {:induction false} AwaitKeepsRemovers(s: State, d: State, th: nat)
    requires RemoversOk(s) && th in s.removers && s.removers[th].Dropping?
    requires d.removers == s.removers && d.t.toRemove.Keys == s.t.toRemove.Keys
    requires d.refs == s.refs || d.refs == s.refs - {s.removers[th].ref}
    requires forall k | k in s.t.toRemove :: d.t.toRemove[k].owner == s.t.toRemove[k].owner
    requires forall k | k in s.t.toRemove && k != s.removers[th].key :: d.t.toRemove[k] == s.t.toRemove[k]
    ensures RemoversOk(d.(removers := s.removers[th := Awaiting(s.removers[th].key)]))
  {
  }

  lemma {:induction false} RegisterKeepsPromises(toRemove: map<BlockId, Promise>, removers: map<nat, Remover>, th: nat, rm: Remover, k: BlockId)
    requires PromisesOk(toRemove, removers) && k !in toRemove && Owns(rm, k)
    requires th in removers ==> !removers[th].Dropping? && !removers[th].Awaiting?
    ensures PromisesOk(toRemove[k := Waiting(th)], removers[th := rm])
  {
  }

  lemma {:induction false} RemoveKeepsPromises(s: State, e: Event)
    requires Inv(s) && Enabled(s, e)
    requires e.RemoveBegin? || e.RemoveFinish? || e.LookUp? || e.Register? || e.RemoveClosed?
    requires e.RemoveBegin? ==> s.refs[e.r].key !in s.t.toRemove
    ensures var s' := RemoveStep(s, e); PromisesOk(s'.t.toRemove, s'.removers)
  {
    if e.RemoveBegin? {
      RegisterKeepsPromises(s.t.toRemove, s.removers, e.thread, Dropping(s.refs[e.r].key, e.r), s.refs[e.r].key);
    } else if e.Register? && s.removers[e.thread].key !in s.t.toRemove {
      RegisterKeepsPromises(s.t.toRemove, s.removers, e.thread, Awaiting(s.removers[e.thread].key), s.removers[e.thread].key);
    }
  }

  lemma {:induction false} RemoveKeepsDroppers(s: State, e: Event)
    requires Inv(s) && Enabled(s, e)
    requires e.RemoveBegin? || e.RemoveFinish? || e.LookUp? || e.Register? || e.RemoveClosed?
    requires e.RemoveBegin? ==> s.refs[e.r].key !in s.t.toRemove
    ensures DroppersOk(RemoveStep(s, e))
  {
    if e.RemoveFinish? {
      FinishKeepsDroppers(s, e.thread);
    }
  }

  /** The promise that is erased is not that of a remover still dropping its handle. */
  lemma {:induction false} FinishKeepsDroppers(s: State, thread: nat)
    requires RemoversOk(s) && Enabled(s, RemoveFinish(thread))
    ensures DroppersOk(RemoveStep(s, RemoveFinish(thread)))
  {
  }

  lemma {:induction false} RemoveKeepsRemovers(s: State, e: Event)
    requires Inv(s) && Enabled(s, e)
    requires e.RemoveBegin? || e.RemoveDrop? || e.RemoveFinish? || e.LookUp? || e.Register? || e.RemoveClosed?
    ensures RemoversOk(RemoveStep(s, e))
  {
    if e.RemoveDrop? {
      RemoveDropKeepsRemovers(s, e.thread);
    } else if e.RemoveBegin? && s.refs[e.r].key in s.t.toRemove {
      DropKeepsRemovers(s, e.r);
    } else {
      RemoveKeepsDroppers(s, e);
      RemoveKeepsPromises(s, e);
    }
  }

  lemma {:induction false} OpenKeepsRemovers(s: State, e: Event)
    requires Inv(s) && Enabled(s, e) && IsOpening(e)
    ensures RemoversOk(OpenStep(s, e))
  {
  }

  lemma {:induction false} HandleKeepsRemovers(s: State, e: Event)
    requires Inv(s) && Enabled(s, e) && (e.Write? || e.Resize? || e.Flush? || e.Release?)
    ensures RemoversOk(HandleStep(s, e))
  {
    if e.Release? {
      DropKeepsRemovers(s, e.r);
    }
  }

  lemma {:induction false} InvKept(s: State, e: Event)
    requires Inv(s) && Enabled(s, e)
    ensures Inv(Apply(s, e))
  {
    if IsOpening(e) {
      OpenKeepsRefs(s, e);
      OpenKeepsRemovers(s, e);
    } else if e.Write? || e.Resize? || e.Flush? || e.Release? {
      HandleKeepsRefs(s, e);
      HandleKeepsRemovers(s, e);
    } else {
      RemoveKeepsRefs(s, e);
      RemoveKeepsRemovers(s, e);
    }
  }

  // ---------- main results on handles, over every run ----------

  lemma {:induction false} Reachable(disciplined: bool, base: Blocks, ss: seq<State>, es: seq<Event>, n: nat)
    requires IsRun(M(disciplined, base), ss, es) && n < |ss|
    ensures Inv(ss[n])
  {
    forall s, e | Inv(s) && Enabled(s, e) ensures Inv(Apply(s, e)) {
      InvKept(s, e);
    }
    Kept(M(disciplined, base), ss, es, s => Inv(s), e => true, 0, n);
  }

  /**
   In every interleaving, disciplined or not: counts equal live handles, every
   handle points at what is open under its id, no handle points at a block that
   was handed to a remover, and without handles nothing is open.
   */
  lemma {:induction false} HandlesConsistent(base: Blocks, ss: seq<State>, es: seq<Event>, n: nat)
    requires IsRun(M(false, base), ss, es) && n < |ss|
    ensures CountsExact(ss[n]) && PointsAtOpen(ss[n])
    ensures forall k, r | InWindow(ss[n].t, k) && r in ss[n].refs :: ss[n].refs[r].uid != ss[n].t.toRemove[k].res.uid
    ensures ss[n].refs == map[] ==> ss[n].t.open == map[]
    ensures ss[n].removers == map[] ==> ss[n].t.toRemove == map[]
  {
    var s := ss[n];
    Reachable(false, base, ss, es, n);
    if s.refs == map[] {
      forall k ensures k !in s.t.open {
        assert RefsTo(s.refs, k) == {};
      }
    }
  }

  // ---------- refinement of a plain map ----------

  /** The base store, overlaid by open blocks and by blocks handed to a remover. */
  function View(t: Table): Blocks {
    map k | k in t.base ::
      if k in t.open then t.open[k].res.data else if InWindow(t, k) then t.toRemove[k].res.data else t.base[k]
  }

  predicate Backed(base: Blocks, k: BlockId, res: Resource) {
    k in base && (!res.dirty ==> base[k] == res.data)
  }

  /** Every open or handed-over block exists in the base store, which is up to date unless the block is dirty. */
  predicate Faithful(t: Table) {
    && (forall k | k in t.open :: Backed(t.base, k, t.open[k].res) && !InWindow(t, k))
    && (forall k | k in t.toRemove && InWindow(t, k) :: Backed(t.base, k, t.toRemove[k].res))
  }

  lemma {:induction false} AddedView(t: Table, k: BlockId, data: seq<byte>)
    requires Faithful(t) && k !in t.open && !InWindow(t, k)
    ensures var t' := Added(t.(base := t.base[k := data]), k, data); Faithful(t') && View(t') == View(t)[k := data]
  {
  }

  lemma {:induction false} ReferencedView(t: Table, k: BlockId)
    requires Faithful(t) && k in t.open && HasRoom(t, k)
    ensures Faithful(Referenced(t, k)) && View(Referenced(t, k)) == View(t)
  {
  }

  lemma {:induction false} LoadedView(t: Table, k: BlockId)
    requires Faithful(t) && HasRoom(t, k) && !InWindow(t, k)
    ensures Faithful(Loaded(t, k).0) && View(Loaded(t, k).0) == View(t)
    ensures Loaded(t, k).1 <==> k in View(t)
    ensures k in View(t) ==> k in Loaded(t, k).0.open && Loaded(t, k).0.open[k].res.data == View(t)[k]
  {
    if k in t.open {
      ReferencedView(t, k);
    } else if k in t.base {
      AddedView(t, k, t.base[k]);
      assert t.base[k := t.base[k]] == t.base;
      assert View(t)[k := t.base[k]] == View(t);
    }
  }

  lemma {:induction false} CreatedView(t: Table, k: BlockId, data: seq<byte>)
    requires Faithful(t)
    ensures Faithful(Created(t, k, data).0)
    ensures View(Created(t, k, data).0) == if k in View(t) then View(t) else View(t)[k := data]
    ensures Created(t, k, data).1 <==> k !in View(t)
  {
    if k !in t.base {
      AddedView(t, k, data);
    }
  }

  /** A new block in the base store is visible at once. */
  lemma {:induction false} StoredView(t: Table, k: BlockId, data: seq<byte>)
    requires Faithful(t)
    ensures k !in t.base ==> Faithful(t.(base := t.base[k := data])) && View(t.(base := t.base[k := data])) == View(t)[k := data]
    ensures k in t.base <==> k in View(t)
  {
  }

  lemma {:induction false} UndisturbedView(t: Table, k: BlockId, data: seq<byte>)
    requires Faithful(t) && Undisturbed(t, k, data)
    ensures Faithful(Added(t, k, data)) && View(Added(t, k, data)) == View(t)
  {
    AddedView(t, k, data);
    assert t.base[k := data] == t.base;
    assert View(t)[k := data] == View(t);
  }

  lemma {:induction false} WithBlockView(t: Table, k: BlockId, data: seq<byte>)
    requires Faithful(t) && k in t.open
    ensures var t' := WithBlock(t, k, t.open[k].res.(data := data, dirty := true)); Faithful(t') && View(t') == View(t)[k := data]
  {
  }

  lemma {:induction false} OverwriteView(t: Table, k: BlockId, data: seq<byte>)
    requires Faithful(t) && HasRoom(t, k) && !InWindow(t, k)
    ensures Faithful(OverwrittenIn(t, k, data)) && View(OverwrittenIn(t, k, data)) == View(t)[k := data]
  {
    if k in t.open {
      var t1 := Referenced(t, k);
      ReferencedView(t, k);
      OverwrittenIsData(t1.open[k].res.data, data);
      WithBlockView(t1, k, data);
    } else {
      AddedView(t, k, data);
    }
  }

  lemma {:induction false} FlushedView(t: Table, k: BlockId)
    requires Faithful(t) && k in t.open
    ensures Faithful(Flushed(t, k)) && View(Flushed(t, k)) == View(t)
  {
  }

  lemma {:induction false} ClosedView(t: Table, k: BlockId)
    requires Faithful(t) && k in t.open && k !in t.toRemove
    ensures var t' := t.(open := t.open - {k}, base := WriteBack(t.base, k, t.open[k].res)); Faithful(t') && View(t') == View(t)
  {
  }

  lemma {:induction false} HandedView(t: Table, k: BlockId, owner: nat)
    requires Faithful(t) && k in t.open && k in t.toRemove
    ensures var t' := t.(open := t.open - {k}, toRemove := t.toRemove[k := Fulfilled(owner, t.open[k].res)]);
      Faithful(t') && View(t') == View(t)
  {
  }

  lemma {:induction false} RecountedView(t: Table, k: BlockId, n: U32)
    requires Faithful(t) && k in t.open
    ensures var t' := t.(open := t.open[k := t.open[k].(refCount := n)]); Faithful(t') && View(t') == View(t)
  {
  }

  /** Dropping a handle never changes what is visible, and in a disciplined run never fails. */
  lemma {:induction false} ReleasedView(t: Table, k: BlockId)
    requires Faithful(t) && k in t.open && t.open[k].refCount > 0
    ensures ReleasedKey(t, k).1 == Released
    ensures Faithful(ReleasedKey(t, k).0) && View(ReleasedKey(t, k).0) == View(t)
  {
    if t.open[k].refCount > 1 {
      RecountedView(t, k, t.open[k].refCount - 1);
    } else if k in t.toRemove {
      HandedView(t, k, t.toRemove[k].owner);
    } else {
      ClosedView(t, k);
    }
  }

  /** Finishing a removal never fails and leaves the id absent, dirty or not. */
  lemma {:induction false} FinishedView(t: Table, k: BlockId)
    requires Faithful(t) && InWindow(t, k)
    ensures Finished(t, k).1
    ensures Faithful(Finished(t, k).0) && View(Finished(t, k).0) == View(t) - {k} && k !in Finished(t, k).0.base
  {
  }

  lemma {:induction false} ClosedRemoval(t: Table, k: BlockId)
    requires Faithful(t) && k !in t.open && !InWindow(t, k)
    ensures Faithful(t.(base := t.base - {k})) && View(t.(base := t.base - {k})) == View(t) - {k}
  {
  }

  const NO_ID: BlockId := [0, 0, 0, 0, 0, 0, 0, 0, 0, 0, 0, 0, 0, 0, 0, 0]

  function HandleKey(s: State, r: nat): BlockId {
    if r in s.refs then s.refs[r].key else NO_ID
  }

  function CreatorKey(s: State, r: nat): BlockId {
    if r in s.creators then s.creators[r].key else NO_ID
  }

  function RemoverKey(s: State, thread: nat): BlockId {
    if thread in s.removers then s.removers[thread].key else NO_ID
  }

  /** The id an event is about. */
  function KeyOf(s: State, e: Event): BlockId {
    match e
    case Load(_, k) => k
    case CreateCheck(_, k, _) => k
    case CreateStore(r) => CreatorKey(s, r)
    case CreateAdd(r) => CreatorKey(s, r)
    case Overwrite(_, k, _) => k
    case LookUp(_, k) => k
    case Write(r, _, _) => HandleKey(s, r)
    case Resize(r, _) => HandleKey(s, r)
    case Flush(r) => HandleKey(s, r)
    case Release(r) => HandleKey(s, r)
    case RemoveBegin(_, r) => HandleKey(s, r)
    case RemoveDrop(thread) => RemoverKey(s, thread)
    case RemoveFinish(thread) => RemoverKey(s, thread)
    case Register(thread) => RemoverKey(s, thread)
    case RemoveClosed(thread) => RemoverKey(s, thread)
  }

  function CreatorData(s: State, r: nat): seq<byte> {
    if r in s.creators then s.creators[r].data else []
  }

  /** The same event on a plain map, for the id and the data it has in `s`. */
  function PlainStep(m: Blocks, s: State, e: Event): Blocks {
    var k := KeyOf(s, e);
    match e
    case CreateStore(r) => if k in m then m else m[k := CreatorData(s, r)]
    case CreateCheck(_, _, _) => m
    case CreateAdd(_) => m
    case Overwrite(_, _, data) => m[k := data]
    case Write(_, offset, src) => if k in m then m[k := WrittenAt(m[k], offset, src)] else m
    case Resize(_, size) => if k in m then m[k := Resized(m[k], size)] else m
    case RemoveFinish(_) => m - {k}
    case RemoveClosed(_) => m - {k}
    case Load(_, _) => m
    case Flush(_) => m
    case Release(_) => m
    case RemoveBegin(_, _) => m
    case RemoveDrop(_) => m
    case LookUp(_, _) => m
    case Register(_) => m
  }

  predicate Good(s: State) {
    Inv(s) && Faithful(s.t) && !s.terminated
  }

  lemma {:induction false} DropRefFollows(s: State, r: nat)
    requires Good(s) && r in s.refs
    ensures var s' := DropRef(s, r); !s'.terminated && Faithful(s'.t) && View(s'.t) == View(s.t)
  {
    ReleasedView(s.t, s.refs[r].key);
  }

  lemma {:induction false} UpdateFollows(s: State, r: nat, data: seq<byte>)
    requires Good(s) && r in s.refs
    ensures var s' := Update(s, r, data); !s'.terminated && Faithful(s'.t) && View(s'.t) == View(s.t)[s.refs[r].key := data]
  {
    WithBlockView(s.t, s.refs[r].key, data);
  }

  lemma {:induction false} OpenFollows(s: State, e: Event)
    requires Good(s) && Enabled(s, e) && Disciplined(s, e) && IsOpening(e)
    ensures var s' := OpenStep(s, e); !s'.terminated && Faithful(s'.t) && View(s'.t) == PlainStep(View(s.t), s, e)
  {
    match e
    case Load(_, k) => LoadedView(s.t, k);
    case CreateCheck(_, _, _) =>
    case CreateStore(r) => StoredView(s.t, s.creators[r].key, s.creators[r].data);
    case CreateAdd(r) => UndisturbedView(s.t, s.creators[r].key, s.creators[r].data);
    case Overwrite(_, k, data) => OverwriteView(s.t, k, data);
  }

  /** A handle shows the visible contents of its block. */
  lemma {:induction false} HandleShowsView(s: State, r: nat)
    requires Good(s) && r in s.refs
    ensures s.refs[r].key in View(s.t) && Contents(s, r) == View(s.t)[s.refs[r].key]
  {
  }

  /** A write outside the block is refused and changes nothing. */
  lemma {:induction false} WriteFollows(s: State, r: nat, offset: nat, src: seq<byte>)
    requires Good(s) && Usable(s, r)
    ensures var s' := HandleStep(s, Write(r, offset, src)); var k := s.refs[r].key;
      !s'.terminated && Faithful(s'.t) && k in View(s.t) && View(s'.t) == View(s.t)[k := WrittenAt(View(s.t)[k], offset, src)]
  {
    var k := s.refs[r].key;
    HandleShowsView(s, r);
    if offset + |src| <= |Contents(s, r)| {
      UpdateFollows(s, r, WrittenAt(Contents(s, r), offset, src));
    } else {
      assert View(s.t)[k := View(s.t)[k]] == View(s.t);
    }
  }

  lemma {:induction false} HandleFollows(s: State, e: Event)
    requires Good(s) && Enabled(s, e) && (e.Write? || e.Resize? || e.Flush? || e.Release?)
    ensures var s' := HandleStep(s, e); !s'.terminated && Faithful(s'.t) && View(s'.t) == PlainStep(View(s.t), s, e)
  {
    var k := s.refs[e.r].key;
    HandleShowsView(s, e.r);
    match e
    case Write(r, offset, src) => WriteFollows(s, r, offset, src);
    case Resize(r, size) => UpdateFollows(s, r, Resized(Contents(s, r), size));
    case Flush(r) => FlushedView(s.t, k);
    case Release(r) => DropRefFollows(s, r);
  }

  lemma {:induction false} RegisterView(t: Table, k: BlockId, thread: nat)
    requires Faithful(t) && k !in t.toRemove
    ensures var t' := t.(toRemove := t.toRemove[k := Waiting(thread)]); Faithful(t') && View(t') == View(t)
  {
  }

  lemma {:induction false} RemoveFollows(s: State, e: Event)
    requires Good(s) && Enabled(s, e) && Disciplined(s, e)
    requires e.RemoveBegin? || e.RemoveDrop? || e.RemoveFinish? || e.LookUp? || e.Register? || e.RemoveClosed?
    ensures var s' := RemoveStep(s, e); !s'.terminated && Faithful(s'.t) && View(s'.t) == PlainStep(View(s.t), s, e)
  {
    match e
    case RemoveBegin(thread, r) =>
      if s.refs[r].key in s.t.toRemove { DropRefFollows(s, r); } else { RegisterView(s.t, s.refs[r].key, thread); }
    case RemoveDrop(thread) => DropRefFollows(s, s.removers[thread].ref);
    case RemoveFinish(thread) => FinishedView(s.t, s.removers[thread].key);
    case LookUp(_, _) =>
    case Register(thread) =>
      if s.removers[thread].key !in s.t.toRemove { RegisterView(s.t, s.removers[thread].key, thread); }
    case RemoveClosed(thread) => ClosedRemoval(s.t, s.removers[thread].key);
  }

  /** Every disciplined event does to the visible blocks what it would do to a plain map. */
  lemma {:induction false} StepRefines(s: State, e: Event)
    requires Good(s) && Enabled(s, e) && Disciplined(s, e)
    ensures Good(Apply(s, e)) && View(Apply(s, e).t) == PlainStep(View(s.t), s, e)
  {
    InvKept(s, e);
    if IsOpening(e) {
      OpenFollows(s, e);
    } else if e.Write? || e.Resize? || e.Flush? || e.Release? {
      HandleFollows(s, e);
    } else {
      RemoveFollows(s, e);
    }
  }

  // ---------- main results on contents ----------

  /** What the first `n` events of a run do to a plain map. */
  ghost function PlainAlong(base: Blocks, ss: seq<State>, es: seq<Event>, n: nat): Blocks
    requires n <= |es| < |ss|
  {
    if n == 0 then base else PlainStep(PlainAlong(base, ss, es, n - 1), ss[n - 1], es[n - 1])
  }

  /**
   Shared write-back handles refine a plain map: in every disciplined
   interleaving the visible blocks are those of the plain map, each handle
   shows its block's contents there, every open block exists in the base store,
   and the program is never terminated by a handle's destructor.
   */
  lemma {:induction false} HandlesRefineMap(base: Blocks, ss: seq<State>, es: seq<Event>, n: nat)
    requires IsRun(M(true, base), ss, es) && n < |ss|
    ensures Good(ss[n]) && View(ss[n].t) == PlainAlong(base, ss, es, n)
    ensures forall r | r in ss[n].refs ::
      ss[n].refs[r].key in PlainAlong(base, ss, es, n) && Contents(ss[n], r) == PlainAlong(base, ss, es, n)[ss[n].refs[r].key]
    ensures ss[n].t.open.Keys <= ss[n].t.base.Keys
  {
    if n == 0 {
      GoodInit(base);
    } else {
      HandlesRefineMap(base, ss, es, n - 1);
      assert StepAt(M(true, base), ss, es, n - 1);
      StepRefines(ss[n - 1], es[n - 1]);
    }
    GoodShows(ss[n]);
  }

  lemma {:induction false} GoodInit(base: Blocks)
    ensures Good(Init(base)) && View(Init(base).t) == base
  {
  }

  lemma {:induction false} GoodShows(s: State)
    requires Good(s)
    ensures forall r | r in s.refs :: s.refs[r].key in View(s.t) && Contents(s, r) == View(s.t)[s.refs[r].key]
    ensures s.t.open.Keys <= s.t.base.Keys
  {
    forall r | r in s.refs ensures s.refs[r].key in View(s.t) && Contents(s, r) == View(s.t)[s.refs[r].key] {
      HandleShowsView(s, r);
    }
    forall k | k in s.t.open ensures k in s.t.base {
      assert Backed(s.t.base, k, s.t.open[k].res);
    }
  }

  /** Removing through the last handle leaves nothing behind, even if the block was dirty. */
  lemma {:induction false} RemoveThroughLastHandle(s: State, thread: nat, r: nat)
    requires Good(s) && Usable(s, r) && thread !in s.removers && s.refs[r].key !in s.t.toRemove
    requires s.t.open[s.refs[r].key].refCount == 1
    ensures var s1 := Apply(s, RemoveBegin(thread, r));
      var s2 := Apply(s1, RemoveDrop(thread));
      var s3 := Apply(s2, RemoveFinish(thread));
      var k := s.refs[r].key;
      && Good(s3) && View(s3.t) == View(s.t) - {k}
      && k !in s3.t.base && k !in s3.t.open && k !in s3.t.toRemove && r !in s3.refs && thread !in s3.removers
  {
    var k := s.refs[r].key;
    var s1 := Apply(s, RemoveBegin(thread, r));
    StepRefines(s, RemoveBegin(thread, r));
    LastDrop(s, thread, r);
    var s2 := Apply(s1, RemoveDrop(thread));
    StepRefines(s1, RemoveDrop(thread));
    StepRefines(s2, RemoveFinish(thread));
    FinishedView(s2.t, k);
  }

  lemma {:induction false} LastDrop(s: State, thread: nat, r: nat)
    requires !s.terminated && Usable(s, r) && thread !in s.removers && s.refs[r].key !in s.t.toRemove
    requires s.refs[r].key in s.t.open && s.t.open[s.refs[r].key].refCount == 1
    ensures var s1 := Apply(s, RemoveBegin(thread, r));
      var s2 := Apply(s1, RemoveDrop(thread));
      var k := s.refs[r].key;
      && Enabled(s1, RemoveDrop(thread)) && s2.removers == s.removers[thread := Awaiting(k)] && InWindow(s2.t, k)
      && k !in s2.t.open && r !in s2.refs
  {
    var k := s.refs[r].key;
    var s1 := Apply(s, RemoveBegin(thread, r));
    assert s1.t == s.t.(toRemove := s.t.toRemove[k := Waiting(thread)]) && s1.removers == s.removers[thread := Dropping(k, r)];
    assert r in s1.refs && s1.refs[r].key == k && !s1.terminated;
    HandOver(s1, thread);
    assert s1.removers[thread := Awaiting(k)] == s.removers[thread := Awaiting(k)];
  }

  /** A remover that drops the last handle is handed the block. */
  lemma {:induction false} HandOver(s: State, thread: nat)
    requires Enabled(s, RemoveDrop(thread)) && s.removers[thread].ref in s.refs
    requires var k := s.removers[thread].key;
      && s.refs[s.removers[thread].ref].key == k && k in s.t.open && s.t.open[k].refCount == 1
      && k in s.t.toRemove && s.t.toRemove[k].Waiting?
    ensures var k, r, s' := s.removers[thread].key, s.removers[thread].ref, Apply(s, RemoveDrop(thread));
      s'.removers == s.removers[thread := Awaiting(k)] && InWindow(s'.t, k) && k !in s'.t.open && r !in s'.refs
  {
  }

  /** Flushing puts the block's contents into the base store. */
  lemma {:induction false} FlushWritesBack(s: State, r: nat)
    requires Good(s) && Usable(s, r)
    ensures var k, s' := s.refs[r].key, Apply(s, Flush(r));
      && k in s'.t.base && s'.t.base == s.t.base[k := Contents(s, r)]
      && Contents(s', r) == Contents(s, r) && !s'.t.open[k].res.dirty
  {
    var k := s.refs[r].key;
    assert Backed(s.t.base, k, s.t.open[k].res);
    assert s.t.base[k := s.t.base[k]] == s.t.base;
  }

  /** When nobody has a handle and nobody is removing, the base store is the plain map. */
  lemma {:induction false} AllWrittenBack(base: Blocks, ss: seq<State>, es: seq<Event>, n: nat)
    requires IsRun(M(true, base), ss, es) && n < |ss| && ss[n].refs == map[] && ss[n].removers == map[]
    ensures ss[n].t.base == PlainAlong(base, ss, es, n)
  {
    HandlesRefineMap(base, ss, es, n);
    NothingOpen(ss[n]);
  }

  lemma {:induction false} NothingOpen(s: State)
    requires Inv(s) && s.refs == map[] && s.removers == map[]
    ensures s.t.open == map[] && s.t.toRemove == map[]
  {
    forall k ensures k !in s.t.open {
      assert RefsTo(s.refs, k) == {};
    }
  }

  /** Two disciplined events one after the other. */
  lemma {:induction false} TwoSteps(s: State, e: Event, e': Event)
    requires Good(s) && Enabled(s, e) && Disciplined(s, e) && Enabled(Apply(s, e), e') && Disciplined(Apply(s, e), e')
    ensures Good(Apply(Apply(s, e), e'))
    ensures View(Apply(Apply(s, e), e').t) == PlainStep(PlainStep(View(s.t), s, e), Apply(s, e), e')
  {
    StepRefines(s, e);
    StepRefines(Apply(s, e), e');
  }

  /** The removal by id waits for its block: the handles and the open blocks are as before. */
  predicate WaitsFor(s: State, s': State, thread: nat, k: BlockId) {
    && s'.refs == s.refs && s'.t.open == s.t.open && s'.t.base == s.t.base
    && thread in s'.removers && s'.removers[thread] == Awaiting(k) && k in s'.t.toRemove && s'.t.toRemove[k].Waiting?
  }

  /** Removing by id a block that is open: the removal registers and waits. */
  lemma {:induction false} RemoveByIdWaits(s: State, thread: nat, k: BlockId)
    requires !s.terminated && thread !in s.removers && k in s.t.open && k !in s.t.toRemove
    ensures var s1 := Apply(s, LookUp(thread, k));
      var s2 := Apply(s1, Register(thread));
      && Enabled(s, LookUp(thread, k)) && Enabled(s1, Register(thread)) && WaitsFor(s, s2, thread, k)
      && !Enabled(s2, RemoveFinish(thread))
  {
  }

  /** Meanwhile nothing visible changes. */
  lemma {:induction false} WaitingIsInvisible(s: State, thread: nat, k: BlockId)
    requires Good(s) && Enabled(s, LookUp(thread, k)) && Enabled(Apply(s, LookUp(thread, k)), Register(thread))
    ensures var s2 := Apply(Apply(s, LookUp(thread, k)), Register(thread)); Good(s2) && View(s2.t) == View(s.t)
  {
    TwoSteps(s, LookUp(thread, k), Register(thread));
  }

  /** When the last handle goes, the waiting removal gets the block, and then it is gone from base store and map. */
  lemma {:induction false} RemoveByIdFinishes(s: State, thread: nat, r: nat)
    requires Good(s) && Usable(s, r) && s.t.open[s.refs[r].key].refCount == 1
    requires thread in s.removers && s.removers[thread] == Awaiting(s.refs[r].key)
    ensures var k := s.refs[r].key;
      var s1 := Apply(s, Release(r));
      var s2 := Apply(s1, RemoveFinish(thread));
      && !Enabled(s, RemoveFinish(thread)) && Enabled(s, Release(r)) && Enabled(s1, RemoveFinish(thread))
      && Good(s2) && View(s2.t) == View(s.t) - {k} && k !in s2.t.base && thread !in s2.removers && r !in s2.refs
  {
    var k := s.refs[r].key;
    var s1 := Apply(s, Release(r));
    assert k in s.t.toRemove && s.t.toRemove[k].Waiting?;
    LastReleaseHandsOver(s, r);
    StepRefines(s, Release(r));
    StepRefines(s1, RemoveFinish(thread));
    FinishedView(s1.t, k);
  }

  lemma {:induction false} LastReleaseHandsOver(s: State, r: nat)
    requires !s.terminated && Usable(s, r) && s.refs[r].key in s.t.open && s.t.open[s.refs[r].key].refCount == 1
    requires s.refs[r].key in s.t.toRemove && s.t.toRemove[s.refs[r].key].Waiting?
    ensures var k, s' := s.refs[r].key, Apply(s, Release(r));
      InWindow(s'.t, k) && k !in s'.t.open && s'.refs == s.refs - {r} && s'.removers == s.removers
  {
  }

  /** A second removal of the same block fails and leaves the first one alone; through a handle, it costs the handle. */
  lemma {:induction false} SecondRemovalFails(s: State, thread: nat, r: nat)
    requires Good(s) && Usable(s, r) && thread !in s.removers && s.refs[r].key in s.t.toRemove
    ensures var s' := Apply(s, RemoveBegin(thread, r));
      s'.removers == s.removers && s'.refs == s.refs - {r} && s'.t.toRemove.Keys == s.t.toRemove.Keys && View(s'.t) == View(s.t)
  {
    StepRefines(s, RemoveBegin(thread, r));
    DropRefShape(s, r);
    DropRefFollows(s, r);
    ReleasedView(s.t, s.refs[r].key);
  }

  lemma {:induction false} SecondRegistrationFails(s: State, thread: nat)
    requires Enabled(s, Register(thread)) && s.removers[thread].key in s.t.toRemove
    ensures Apply(s, Register(thread)) == s.(removers := s.removers - {thread})
  {
  }

  /** Removing by id a block that is not open takes it away at once. */
  lemma {:induction false} RemoveByIdClosed(s: State, thread: nat, k: BlockId)
    requires Good(s) && thread !in s.removers && k !in s.t.open && !InWindow(s.t, k)
    ensures var s1 := Apply(s, LookUp(thread, k));
      var s2 := Apply(s1, RemoveClosed(thread));
      && Enabled(s, LookUp(thread, k)) && Enabled(s1, RemoveClosed(thread))
      && Good(s2) && View(s2.t) == View(s.t) - {k} && k !in s2.t.base && s2.removers == s.removers
  {
    var s1 := Apply(s, LookUp(thread, k));
    ClosedShape(s, thread, k);
    TwoSteps(s, LookUp(thread, k), RemoveClosed(thread));
  }

  lemma {:induction false} ClosedShape(s: State, thread: nat, k: BlockId)
    requires !s.terminated && thread !in s.removers && k !in s.t.open
    ensures var s1 := Apply(s, LookUp(thread, k));
      && Enabled(s, LookUp(thread, k)) && s1 == s.(removers := s.removers[thread := FoundClosed(k)])
      && Enabled(s1, RemoveClosed(thread)) && Apply(s1, RemoveClosed(thread)) == s.(t := s.t.(base := s.t.base - {k}))
  {
    assert s.removers[thread := FoundClosed(k)] - {thread} == s.removers;
  }

  // ---------- the window ----------

  /** A handle's destructor ends the program exactly when it drops the last handle of a block that is in the window. */
  lemma {:induction false} TerminatesIff(s: State, r: nat)
    requires Inv(s) && !s.terminated && Usable(s, r)
    ensures Apply(s, Release(r)).terminated <==> s.t.open[s.refs[r].key].refCount == 1 && InWindow(s.t, s.refs[r].key)
  {
  }

  /**
   Opening a block in the window: the handle shows what was last written back,
   and dropping it ends the program.  Neither can happen outside the window.
   */
  lemma {:induction false} OpeningInWindow(s: State, r: nat, k: BlockId)
    requires Good(s) && Enabled(s, Load(r, k)) && k in View(s.t)
    ensures var s1 := Apply(s, Load(r, k));
      && r in s1.refs && (Apply(s1, Release(r)).terminated <==> InWindow(s.t, k))
      && (Contents(s1, r) != View(s.t)[k] ==> InWindow(s.t, k) && s.t.toRemove[k].res.dirty)
      && (InWindow(s.t, k) ==> Contents(s1, r) == s.t.base[k])
  {
    if InWindow(s.t, k) {
      ReopenedEnds(s, Load(r, k));
      assert Backed(s.t.base, k, s.t.toRemove[k].res);
    } else {
      StepRefines(s, Load(r, k));
      LoadedView(s.t, k);
      StepRefines(Apply(s, Load(r, k)), Release(r));
    }
  }

  /** A run that gets there: write, start removing through the only handle, and open the block again in the window. */
  lemma {:induction false} StaleReadInWindow(k: BlockId)
    ensures var s0 := Init(map[k := [0]]);
      var s1 := Apply(s0, Load(0, k));
      var s2 := Apply(s1, Write(0, 0, [1]));
      var s3 := Apply(s2, RemoveBegin(7, 0));
      var s4 := Apply(s3, RemoveDrop(7));
      var s5 := Apply(s4, Load(1, k));
      && Enabled(s0, Load(0, k)) && Enabled(s1, Write(0, 0, [1])) && Enabled(s2, RemoveBegin(7, 0))
      && Enabled(s3, RemoveDrop(7)) && Enabled(s4, Load(1, k))
      && Contents(s2, 0) == [1] && Contents(s5, 1) == [0]
  {
  }

  /**
   The other race: a removal by id finds its block closed, the block is opened,
   and only then is it taken from the base store.  The open handle brings it back.
   */
  lemma {:induction false} RemovedBlockReturns(k: BlockId)
    ensures var s0 := Init(map[k := [0]]);
      var s1 := Apply(s0, LookUp(7, k));
      var s2 := Apply(s1, Load(0, k));
      var s3 := Apply(s2, RemoveClosed(7));
      var s4 := Apply(s3, Resize(0, 2));
      var s5 := Apply(s4, Release(0));
      && Enabled(s0, LookUp(7, k)) && Enabled(s1, Load(0, k)) && Enabled(s2, RemoveClosed(7))
      && Enabled(s3, Resize(0, 2)) && Enabled(s4, Release(0))
      && k !in View(s3.t) && k in View(s5.t) && s5.removers == map[]
  {
  }

  /** A creation that is disturbed: another thread opens the block before it is added, and the creator gets no handle. */
  lemma {:induction false} DisturbedCreation(k: BlockId, data: seq<byte>)
    ensures var s0 := Init(map[]);
      var s1 := Apply(s0, CreateCheck(0, k, data));
      var s2 := Apply(s1, CreateStore(0));
      var s3 := Apply(s2, Load(1, k));
      var s4 := Apply(s3, CreateAdd(0));
      && Enabled(s0, CreateCheck(0, k, data)) && Enabled(s1, CreateStore(0)) && Enabled(s2, Load(1, k)) && Enabled(s3, CreateAdd(0))
      && k in View(s4.t) && 0 !in s4.refs && 0 !in s4.creators
  {
  }

  // ---------- exactly when the store behaves like a plain map ----------

  /** What threads can see: the program runs, and every handle shows its block of the map. */
  predicate Shows(s: State, m: Blocks) {
    !s.terminated && forall r | r in s.refs :: s.refs[r].key in m && Contents(s, r) == m[s.refs[r].key]
  }

  /**
   Opening gives a handle as the map says, a creation goes on as the map says
   and then gets its handle, and a removal finds its block.
   */
  predicate Answers(s: State, m: Blocks, e: Event)
    requires Enabled(s, e)
  {
    match e
    case Load(r, k) => r in Apply(s, e).refs <==> k in m
    case CreateCheck(r, k, _) => r !in Apply(s, e).creators ==> k in m
    case CreateStore(r) => r in Apply(s, e).creators <==> KeyOf(s, e) !in m
    case CreateAdd(r) => r in Apply(s, e).refs
    case RemoveFinish(_) => Finished(s.t, KeyOf(s, e)).1 && KeyOf(s, e) in m
    case RemoveClosed(_) => KeyOf(s, e) in s.t.base <==> KeyOf(s, e) in m
    case _ => true
  }

  /** The disciplined events `es` do and show from `s` on what they do to the map `m`. */
  predicate Agrees(s: State, m: Blocks, es: seq<Event>)
    decreases |es|
  {
    && Shows(s, m)
    && (es != [] && Enabled(s, es[0]) && Disciplined(s, es[0]) ==>
          Answers(s, m, es[0]) && Agrees(Apply(s, es[0]), PlainStep(m, s, es[0]), es[1..]))
  }

  /** Whatever disciplined events follow, the store does what the map does. */
  ghost predicate ActsLike(s: State, m: Blocks) {
    forall es: seq<Event> :: Agrees(s, m, es)
  }

  lemma {:induction false} GoodAgrees(s: State, es: seq<Event>)
    requires Good(s)
    ensures Agrees(s, View(s.t), es)
    decreases |es|
  {
    GoodShows(s);
    if es != [] && Enabled(s, es[0]) && Disciplined(s, es[0]) {
      GoodAnswers(s, es[0]);
      StepRefines(s, es[0]);
      GoodAgrees(Apply(s, es[0]), es[1..]);
    }
  }

  lemma {:induction false} GoodAnswers(s: State, e: Event)
    requires Good(s) && Enabled(s, e) && Disciplined(s, e)
    ensures Answers(s, View(s.t), e)
  {
    if e.Load? {
      LoadedView(s.t, e.k);
    } else if e.RemoveFinish? {
      FinishedView(s.t, KeyOf(s, e));
    } else if e.CreateStore? {
      StoredView(s.t, KeyOf(s, e), s.creators[e.r].data);
    }
  }

  /** One event keeps the store good and has the outcome the map says, exactly if it is disciplined. */
  lemma {:induction false} GoodIffDisciplined(s: State, e: Event)
    requires Good(s) && Enabled(s, e)
    ensures Good(Apply(s, e)) && Answers(s, View(s.t), e) <==> Disciplined(s, e)
  {
    var s', k := Apply(s, e), KeyOf(s, e);
    if Disciplined(s, e) {
      StepRefines(s, e);
      GoodAnswers(s, e);
    } else if e.RemoveClosed? {
      assert !Backed(s'.t.base, k, if k in s.t.open then s.t.open[k].res else s.t.toRemove[k].res);
    } else if !e.CreateAdd? {
      assert k in s'.t.open && InWindow(s'.t, k);
    } else if k !in s.t.open {
      assert k in s'.t.open && s'.t.open[k].res == Resource(s.t.nextUid, s.creators[e.r].data, false);
    }
  }

  /** In a disciplined run every event has the outcome the plain map says. */
  lemma {:induction false} OutcomesAgree(base: Blocks, ss: seq<State>, es: seq<Event>, n: nat)
    requires IsRun(M(true, base), ss, es) && n < |es|
    ensures Enabled(ss[n], es[n]) && Answers(ss[n], PlainAlong(base, ss, es, n), es[n])
  {
    HandlesRefineMap(base, ss, es, n);
    assert StepAt(M(true, base), ss, es, n);
    GoodAnswers(ss[n], es[n]);
  }

  /** A block opened in the window cannot be released. */
  lemma {:induction false} ReopenedEnds(s: State, e: Event)
    requires Good(s) && Enabled(s, e) && (e.Load? || e.CreateAdd? || e.Overwrite?) && InWindow(s.t, KeyOf(s, e))
    ensures Enabled(Apply(s, e), Release(e.r)) && Apply(Apply(s, e), Release(e.r)).terminated
  {
  }

  lemma {:induction false} EndDisagrees(s: State, m: Blocks, e: Event)
    requires Enabled(s, e) && Disciplined(s, e) && (Apply(s, e).terminated || !Answers(s, m, e))
    ensures !ActsLike(s, m)
  {
    if Apply(s, e).terminated {
      assert !Agrees(Apply(s, e), PlainStep(m, s, e), [e][1..]);
    }
    assert !Agrees(s, m, [e]);
  }

  /** The remover a block is handed to is waiting for it. */
  lemma {:induction false} WindowHasOwner(s: State, k: BlockId)
    requires Inv(s) && !s.terminated && InWindow(s.t, k)
    ensures var th := s.t.toRemove[k].owner; Enabled(s, RemoveFinish(th)) && s.removers[th].key == k
  {
  }

  /** A removal by id takes a block away under its handles, or from under the remover it is handed to. */
  lemma {:induction false} RemovalShows(s: State, thread: nat)
    requires Good(s) && Enabled(s, RemoveClosed(thread)) && !Disciplined(s, RemoveClosed(thread))
    ensures !ActsLike(Apply(s, RemoveClosed(thread)), PlainStep(View(s.t), s, RemoveClosed(thread)))
  {
    var s', k := Apply(s, RemoveClosed(thread)), s.removers[thread].key;
    var m := PlainStep(View(s.t), s, RemoveClosed(thread));
    if k in s.t.open {
      assert RefsTo(s.refs, k) != {};
      var r :| r in RefsTo(s.refs, k);
      assert r in s'.refs && s'.refs[r].key !in m;
      assert !Agrees(s', m, []);
    } else {
      WindowHasOwner(s, k);
      EndDisagrees(s', m, RemoveFinish(s.t.toRemove[k].owner));
    }
  }

  /** A creation that was disturbed gets no handle, or one that ends the program, or one that shows something else. */
  lemma {:induction false} DisturbedShows(s: State, r: nat)
    requires Good(s) && Enabled(s, CreateAdd(r)) && !Disciplined(s, CreateAdd(r)) && Answers(s, View(s.t), CreateAdd(r))
    ensures !ActsLike(Apply(s, CreateAdd(r)), PlainStep(View(s.t), s, CreateAdd(r)))
  {
    var s', k := Apply(s, CreateAdd(r)), s.creators[r].key;
    if InWindow(s.t, k) {
      ReopenedEnds(s, CreateAdd(r));
      EndDisagrees(s', View(s.t), Release(r));
    } else {
      assert r in s'.refs && s'.refs[r].key == k && Contents(s', r) == s.creators[r].data;
      assert !Shows(s', View(s.t));
      assert !Agrees(s', View(s.t), []);
    }
  }

  /** Every undisciplined event shows, at once or after further disciplined events. */
  lemma {:induction false} UndisciplinedShows(s: State, e: Event)
    requires Good(s) && Enabled(s, e) && !Disciplined(s, e) && Answers(s, View(s.t), e)
    ensures !ActsLike(Apply(s, e), PlainStep(View(s.t), s, e))
  {
    match e
    case CreateAdd(r) => DisturbedShows(s, r);
    case RemoveClosed(thread) => RemovalShows(s, thread);
    case Load(r, _) => ReopenedEnds(s, e); EndDisagrees(Apply(s, e), PlainStep(View(s.t), s, e), Release(r));
    case Overwrite(r, _, _) => ReopenedEnds(s, e); EndDisagrees(Apply(s, e), PlainStep(View(s.t), s, e), Release(r));
  }

  lemma {:induction false} ActingIsDisciplined(s: State, e: Event)
    requires Good(s) && Enabled(s, e) && Answers(s, View(s.t), e) && ActsLike(Apply(s, e), PlainStep(View(s.t), s, e))
    ensures Disciplined(s, e) && Good(Apply(s, e)) && View(Apply(s, e).t) == PlainStep(View(s.t), s, e)
  {
    if Disciplined(s, e) {
      StepRefines(s, e);
    } else {
      UndisciplinedShows(s, e);
    }
  }

  /** After `i` events the next one, and whatever disciplined events could follow instead, do and show what the map says. */
  ghost predicate LikeMapAt(base: Blocks, ss: seq<State>, es: seq<Event>, i: nat)
    requires i <= |es| < |ss|
  {
    && ActsLike(ss[i], PlainAlong(base, ss, es, i))
    && (i < |es| && Enabled(ss[i], es[i]) ==> Answers(ss[i], PlainAlong(base, ss, es, i), es[i]))
  }

  predicate DisciplinedAt(ss: seq<State>, es: seq<Event>, i: nat)
    requires i < |es| < |ss|
  {
    Disciplined(ss[i], es[i])
  }

  /** The store is good and shows what the map holds after `i` events. */
  ghost predicate GoodAt(base: Blocks, ss: seq<State>, es: seq<Event>, i: nat)
    requires i <= |es| < |ss|
  {
    Good(ss[i]) && View(ss[i].t) == PlainAlong(base, ss, es, i)
  }

  lemma {:induction false} GoodAtStart(base: Blocks, ss: seq<State>, es: seq<Event>)
    requires IsRun(M(false, base), ss, es)
    ensures GoodAt(base, ss, es, 0)
  {
    GoodInit(base);
  }

  lemma {:induction false} NextIsDisciplined(base: Blocks, ss: seq<State>, es: seq<Event>, i: nat)
    requires IsRun(M(false, base), ss, es) && i < |es| && GoodAt(base, ss, es, i)
    requires LikeMapAt(base, ss, es, i) && LikeMapAt(base, ss, es, i + 1)
    ensures DisciplinedAt(ss, es, i) && GoodAt(base, ss, es, i + 1)
  {
    assert StepAt(M(false, base), ss, es, i);
    ActingIsDisciplined(ss[i], es[i]);
  }

  lemma {:induction false} GoodThroughout(base: Blocks, ss: seq<State>, es: seq<Event>, n: nat)
    requires IsRun(M(false, base), ss, es) && n <= |es| && forall i: nat | i <= |es| :: LikeMapAt(base, ss, es, i)
    ensures GoodAt(base, ss, es, n)
  {
    if n == 0 {
      GoodAtStart(base, ss, es);
    } else {
      GoodThroughout(base, ss, es, n - 1);
      NextIsDisciplined(base, ss, es, n - 1);
    }
  }

  lemma {:induction false} DisciplinedRun(base: Blocks, ss: seq<State>, es: seq<Event>)
    requires IsRun(M(false, base), ss, es) && forall i: nat | i < |es| :: DisciplinedAt(ss, es, i)
    ensures IsRun(M(true, base), ss, es)
  {
    forall i: nat | i < |es| ensures StepAt(M(true, base), ss, es, i) {
      assert StepAt(M(false, base), ss, es, i) && DisciplinedAt(ss, es, i);
    }
  }

  /**
   The exact condition, over every interleaving: at every point the store acts
   like the plain map whatever disciplined events follow, if and only if no
   event opened a block in the window, no removal by id hit a block that was
   opened or handed over since it was looked up, and no creation was disturbed
   between its sections.
   */
  lemma {:induction false} RefinesIffDisciplined(base: Blocks, ss: seq<State>, es: seq<Event>)
    requires IsRun(M(false, base), ss, es)
    ensures (forall n: nat | n <= |es| :: LikeMapAt(base, ss, es, n)) <==> (forall i: nat | i < |es| :: DisciplinedAt(ss, es, i))
  {
    if forall i: nat | i < |es| :: DisciplinedAt(ss, es, i) {
      DisciplinedRun(base, ss, es);
      forall n: nat | n <= |es| ensures LikeMapAt(base, ss, es, n) {
        HandlesRefineMap(base, ss, es, n);
        forall more: seq<Event> ensures Agrees(ss[n], View(ss[n].t), more) {
          GoodAgrees(ss[n], more);
        }
        if n < |es| {
          assert StepAt(M(true, base), ss, es, n);
          GoodAnswers(ss[n], es[n]);
        }
      }
    }
    if forall n: nat | n <= |es| :: LikeMapAt(base, ss, es, n) {
      forall i: nat | i < |es| ensures DisciplinedAt(ss, es, i) {
        assert LikeMapAt(base, ss, es, i) && LikeMapAt(base, ss, es, i + 1);
        GoodThroughout(base, ss, es, i);
        NextIsDisciplined(base, ss, es, i);
      }
    }
  }
}
