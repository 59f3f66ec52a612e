/**
 Shared handles to write-back blocks.  Threads get handles to blocks by id; all
 handles of one id share one open block, which is written back when the last
 handle goes away, or handed over to a thread that waits to remove the block.
 Every section under the store's mutex is one step, so runs are interleavings
 of such sections.
 */
module SharedBlocks {
  import opened Bytes
  import opened Runs
  import PlainStore

  type Blocks = PlainStore.Blocks

  /** An open block; `uid` is its identity (the address the handles point to). */
  datatype Resource = Resource(uid: nat, data: seq<byte>, dirty: bool)

  datatype Open = Open(res: Resource, refCount: U32)

  /** What the thread `owner`, which removes a block, is waiting for. */
  datatype Promise = Waiting(owner: nat) | Fulfilled(owner: nat, res: Resource)

  /** The fields of the store, with the base store below it. */
  datatype Table = Table(base: Blocks, open: map<BlockId, Open>, toRemove: map<BlockId, Promise>, nextUid: nat)

  // ---------- block contents ----------

  function Zeroes(n: nat): seq<byte> {
    seq(n, i requires 0 <= i < n => 0)
  }

  /** Keeps the common prefix and fills up with zeroes. */
  function Resized(d: seq<byte>, n: nat): (r: seq<byte>)
    ensures |r| == n
  {
    if n <= |d| then d[..n] else d + Zeroes(n - |d|)
  }

  function WrittenAt(d: seq<byte>, offset: nat, src: seq<byte>): seq<byte> {
    if offset + |src| > |d| then d else d[..offset] + src + d[offset + |src|..]
  }

  /** A write inside the block changes exactly the bytes it covers; any other write changes nothing. */
  lemma {:induction false} WrittenBytes(d: seq<byte>, offset: nat, src: seq<byte>)
    ensures |WrittenAt(d, offset, src)| == |d|
    ensures forall i | 0 <= i < |d| ::
      WrittenAt(d, offset, src)[i] == if offset + |src| <= |d| && offset <= i < offset + |src| then src[i - offset] else d[i]
  {
  }

  /** Resizing keeps every byte that fits; new bytes are zero. */
  lemma {:induction false} ResizedBytes(d: seq<byte>, n: nat)
    ensures forall i | 0 <= i < n :: Resized(d, n)[i] == if i < |d| then d[i] else 0
  {
  }

  /** Overwriting an open block resizes it if needed and then writes at offset 0. */
  function Overwritten(d: seq<byte>, data: seq<byte>): seq<byte> {
    WrittenAt(if |d| != |data| then Resized(d, |data|) else d, 0, data)
  }

  lemma {:induction false} OverwrittenIsData(d: seq<byte>, data: seq<byte>)
    ensures Overwritten(d, data) == data
  {
  }

  function WriteBack(base: Blocks, k: BlockId, res: Resource): Blocks {
    if res.dirty then base[k := res.data] else base
  }

  // ---------- the block object ----------

  /** A block with its own copy of the data, which goes back to the base store when it is flushed or destroyed. */
  class LowToHighLevelBlock {
    const id: BlockId
    const base: PlainStore.InMemoryBlockStore
    var data: seq<byte>
    var dirty: bool

    /** The base store has the block, with the same data unless this block is dirty. */
    ghost predicate Valid()
      reads this, base
    {
      id in base.blocks && (dirty || base.blocks[id] == data)
    }

    constructor (id: BlockId, data: seq<byte>, base: PlainStore.InMemoryBlockStore)
      ensures this.id == id && this.base == base && this.data == data && !dirty
    {
      this.id, this.base, this.data, dirty := id, base, data, false;
    }

    static method TryCreateNew(base: PlainStore.InMemoryBlockStore, id: BlockId, data: seq<byte>)
      returns (r: Option<LowToHighLevelBlock>)
      modifies base
      ensures r.Some? <==> id !in old(base.blocks)
      ensures base.blocks == if r.Some? then old(base.blocks)[id := data] else old(base.blocks)
      ensures r.Some? ==> fresh(r.value) && r.value.id == id && r.value.base == base && r.value.data == data && r.value.Valid()
    {
      var success := base.TryCreate(id, data);
      if !success { return None; }
      var block := new LowToHighLevelBlock(id, data, base);
      return Some(block);
    }

    static method Overwrite(base: PlainStore.InMemoryBlockStore, id: BlockId, data: seq<byte>)
      returns (block: LowToHighLevelBlock)
      modifies base
      ensures base.blocks == old(base.blocks)[id := data]
      ensures fresh(block) && block.id == id && block.base == base && block.data == data && block.Valid()
    {
      var _ := base.Store(id, data);
      block := new LowToHighLevelBlock(id, data, base);
    }

    static method Load(base: PlainStore.InMemoryBlockStore, id: BlockId) returns (r: Option<LowToHighLevelBlock>)
      ensures r.Some? <==> id in base.blocks
      ensures r.Some? ==>
        fresh(r.value) && r.value.id == id && r.value.base == base && r.value.data == base.blocks[id] && r.value.Valid()
    {
      var loaded := base.Load(id);
      if loaded == None { return None; }
      var block := new LowToHighLevelBlock(id, loaded.value, base);
      return Some(block);
    }

    /** `ok` is false if the assertion fails, and then nothing is written. */
    method Write(src: seq<byte>, offset: nat) returns (ok: bool)
      modifies this
      ensures ok <==> offset + |src| <= |old(data)|
      ensures data == WrittenAt(old(data), offset, src) && |data| == |old(data)| && (dirty <==> ok || old(dirty))
      ensures forall i | 0 <= i < |data| ::
        data[i] == if ok && offset <= i < offset + |src| then src[i - offset] else old(data)[i]
      ensures old(Valid()) ==> Valid()
    {
      ok := offset <= |data| && offset + |src| <= |data|;
      if ok {
        data := data[..offset] + src + data[offset + |src|..];
        dirty := true;
      }
    }

    method Resize(size: nat)
      modifies this
      ensures data == Resized(old(data), size) && dirty && |data| == size
      ensures forall i | 0 <= i < size :: data[i] == if i < |old(data)| then old(data)[i] else 0
      ensures old(Valid()) ==> Valid()
    {
      var n := if size < |data| then size else |data|;
      data := data[..n] + Zeroes(size - n);
      dirty := true;
    }

    /** Runs in `flush` and in the destructor. */
    method StoreToBase()
      modifies this, base
      ensures data == old(data) && !dirty
      ensures base.blocks == WriteBack(old(base.blocks), id, Resource(0, old(data), old(dirty)))
      ensures old(Valid()) ==> Valid() && base.blocks == old(base.blocks)[id := data]
    {
      if dirty {
        var _ := base.Store(id, data);
        dirty := false;
      }
    }
  }

  // ---------- the sections under the mutex ----------

  /** Opens a block that is not open yet, with one handle. */
  function Added(t: Table, k: BlockId, data: seq<byte>): Table {
    t.(open := t.open[k := Open(Resource(t.nextUid, data, false), 1)], nextUid := t.nextUid + 1)
  }

  /** The count is a 32-bit number and wraps around. */
  function CountedUp(n: U32): U32 {
    (n + 1) % 0x1_0000_0000
  }

  function Referenced(t: Table, k: BlockId): Table
    requires k in t.open
  {
    t.(open := t.open[k := t.open[k].(refCount := CountedUp(t.open[k].refCount))])
  }

  function WithBlock(t: Table, k: BlockId, res: Resource): Table
    requires k in t.open
  {
    t.(open := t.open[k := t.open[k].(res := res)])
  }

  /** The number of handles to `k` fits the count. */
  predicate HasRoom(t: Table, k: BlockId) {
    k in t.open ==> t.open[k].refCount + 1 < 0x1_0000_0000
  }

  /** `load`: the bool says whether there is a handle. */
  function Loaded(t: Table, k: BlockId): (Table, bool) {
    if k in t.open then (Referenced(t, k), true)
    else if k in t.base then (Added(t, k, t.base[k]), true)
    else (t, false)
  }

  function Created(t: Table, k: BlockId, data: seq<byte>): (Table, bool) {
    if k in t.open || k in t.base then (t, false)
    else (Added(t.(base := t.base[k := data]), k, data), true)
  }

  function OverwrittenIn(t: Table, k: BlockId, data: seq<byte>): Table {
    if k in t.open then
      var t1 := Referenced(t, k);
      WithBlock(t1, k, t1.open[k].res.(data := Overwritten(t1.open[k].res.data, data), dirty := true))
    else Added(t.(base := t.base[k := data]), k, data)
  }

  datatype ReleaseOutcome = Released | PromiseAlreadySatisfied

  /** `release`: runs in the destructor of a handle. */
  function ReleasedKey(t: Table, k: BlockId): (Table, ReleaseOutcome)
    requires k in t.open && t.open[k].refCount > 0
  {
    var o := t.open[k];
    if o.refCount > 1 then (t.(open := t.open[k := o.(refCount := o.refCount - 1)]), Released)
    else if k in t.toRemove then
      if t.toRemove[k].Fulfilled? then (t, PromiseAlreadySatisfied)
      else (t.(open := t.open - {k}, toRemove := t.toRemove[k := Fulfilled(t.toRemove[k].owner, o.res)]), Released)
    else (t.(open := t.open - {k}, base := WriteBack(t.base, k, o.res)), Released)
  }

  /** The last section of a removal: destroys the block, which writes it back if dirty, and removes it. */
  function Finished(t: Table, k: BlockId): (Table, bool)
    requires k in t.toRemove && t.toRemove[k].Fulfilled?
  {
    var base := WriteBack(t.base, k, t.toRemove[k].res);
    (t.(toRemove := t.toRemove - {k}, base := base - {k}), k in base)
  }

  function Flushed(t: Table, k: BlockId): Table
    requires k in t.open
  {
    WithBlock(t.(base := WriteBack(t.base, k, t.open[k].res)), k, t.open[k].res.(dirty := false))
  }

  // ---------- the object ----------

  /** The store as the source keeps it; each method is one section under the mutex. */
  class ParallelAccessStore {
    var base: Blocks
    var open: map<BlockId, Open>
    var toRemove: map<BlockId, Promise>
    var nextUid: nat

    ghost function Fields(): Table
      reads this
    {
      Table(base, open, toRemove, nextUid)
    }

    constructor (base: Blocks)
      ensures Fields() == Table(base, map[], map[], 0)
    {
      this.base, open, toRemove, nextUid := base, map[], map[], 0;
    }

    /** `_add`: opens a block under an id that is not open and returns the block a handle points to. */
    method Add(k: BlockId, data: seq<byte>) returns (uid: nat)
      requires k !in open
      modifies this
      ensures Fields() == Added(old(Fields()), k, data) && k in open && uid == open[k].res.uid
    {
      uid := nextUid;
      nextUid := nextUid + 1;
      open := open[k := Open(Resource(uid, data, false), 0)];
      uid := GetReference(k);
    }

    method GetReference(k: BlockId) returns (uid: nat)
      requires k in open
      modifies this
      ensures Fields() == Referenced(old(Fields()), k) && k in open && uid == open[k].res.uid
    {
      open := open[k := open[k].(refCount := CountedUp(open[k].refCount))];
      uid := open[k].res.uid;
    }

    method LoadBlock(k: BlockId) returns (r: Option<nat>)
      modifies this
      ensures (Fields(), r.Some?) == Loaded(old(Fields()), k)
      ensures r.Some? ==> k in open && r.value == open[k].res.uid
    {
      var uid;
      if k !in open {
        if k !in base { return None; }
        uid := Add(k, base[k]);
      } else {
        uid := GetReference(k);
      }
      return Some(uid);
    }

    method IsOpened(k: BlockId) returns (r: bool)
      ensures r <==> k in open
    {
      return k in open;
    }

    /** The base store's part of a creation. */
    method CreateInBase(k: BlockId, data: seq<byte>) returns (ok: bool)
      modifies this
      ensures Fields() == if ok then old(Fields()).(base := old(base)[k := data]) else old(Fields())
      ensures ok <==> k !in old(base)
    {
      if k in base { return false; }
      base := base[k := data];
      return true;
    }

    /** The three sections of a creation with nothing in between. */
    method TryCreate(k: BlockId, data: seq<byte>) returns (r: Option<nat>)
      modifies this
      ensures (Fields(), r.Some?) == Created(old(Fields()), k, data)
      ensures r.Some? ==> k in open && r.value == open[k].res.uid
    {
      var isOpen := IsOpened(k);
      if isOpen { return None; }
      var ok := CreateInBase(k, data);
      if !ok { return None; }
      var uid := Add(k, data);
      return Some(uid);
    }

    method OverwriteBlock(k: BlockId, data: seq<byte>) returns (uid: nat)
      modifies this
      ensures Fields() == OverwrittenIn(old(Fields()), k, data) && k in open && uid == open[k].res.uid
    {
      if k !in open {
        base := base[k := data];
        uid := Add(k, data);
      } else {
        uid := GetReference(k);
        var res := open[k].res;
        if |res.data| != |data| {
          res := res.(data := Resized(res.data, |data|), dirty := true);
        }
        res := res.(data := WrittenAt(res.data, 0, data), dirty := true);
        open := open[k := open[k].(res := res)];
      }
    }

    /** Runs in the destructor of a handle; `ok` is false if setting the promise throws. */
    method ReleaseHandle(k: BlockId) returns (ok: bool)
      requires k in open && open[k].refCount > 0
      modifies this
      ensures ok <==> ReleasedKey(old(Fields()), k).1 == Released
      ensures ok ==> Fields() == ReleasedKey(old(Fields()), k).0
    {
      var o := open[k];
      open := open[k := o.(refCount := o.refCount - 1)];
      if open[k].refCount == 0 {
        if k in toRemove {
          if toRemove[k].Fulfilled? { return false; }
          toRemove := toRemove[k := Fulfilled(toRemove[k].owner, o.res)];
          open := open - {k};
        } else {
          open := open - {k};
          if o.res.dirty {
            base := base[k := o.res.data];
          }
        }
        assert open == old(open) - {k};
      }
      return true;
    }

    /** The last section of `remove`: `ok` is false if the base store has no such block. */
    method FinishRemoval(k: BlockId) returns (ok: bool)
      requires k in toRemove && toRemove[k].Fulfilled?
      modifies this
      ensures (Fields(), ok) == Finished(old(Fields()), k)
    {
      var res := toRemove[k].res;
      toRemove := toRemove - {k};
      if res.dirty {
        base := base[k := res.data];
      }
      ok := k in base;
      base := base - {k};
    }
  }

  // ---------- the machine ----------

  /** A live handle; `removing` once it has been given to `remove`. */
  datatype Ref = Ref(key: BlockId, uid: nat, removing: bool)

  /** A thread inside one of the two `remove`s. */
  datatype Remover =
    | Dropping(key: BlockId, ref: nat)      // promise registered, own handle not yet destroyed
    | Awaiting(key: BlockId)                // waiting for the promise
    | FoundOpen(key: BlockId)               // looked up, without the mutex, and found open
    | FoundClosed(key: BlockId)             // looked up, without the mutex, and not found

  /** A thread inside `tryCreate`, by the handle it wants; `stored` once the base store has the block. */
  datatype Creation = Creation(key: BlockId, data: seq<byte>, stored: bool)

  datatype State = State(
    t: Table, refs: map<nat, Ref>, creators: map<nat, Creation>, removers: map<nat, Remover>, terminated: bool)

  datatype Event =
    | Load(r: nat, k: BlockId)
    | CreateCheck(r: nat, k: BlockId, data: seq<byte>)
    | CreateStore(r: nat)
    | CreateAdd(r: nat)
    | Overwrite(r: nat, k: BlockId, data: seq<byte>)
    | Write(r: nat, offset: nat, src: seq<byte>)
    | Resize(r: nat, size: nat)
    | Flush(r: nat)
    | Release(r: nat)
    | RemoveBegin(thread: nat, r: nat)
    | RemoveDrop(thread: nat)
    | RemoveFinish(thread: nat)
    | LookUp(thread: nat, k: BlockId)
    | Register(thread: nat)
    | RemoveClosed(thread: nat)

  predicate Usable(s: State, r: nat) {
    r in s.refs && !s.refs[r].removing
  }

  predicate Enabled(s: State, e: Event) {
    && !s.terminated
    && match e
       case Load(r, k) => r !in s.refs && r !in s.creators && HasRoom(s.t, k)
       case CreateCheck(r, _, _) => r !in s.refs && r !in s.creators
       case CreateStore(r) => r in s.creators && !s.creators[r].stored
       case CreateAdd(r) => r in s.creators && s.creators[r].stored && r !in s.refs
       case Overwrite(r, k, _) => r !in s.refs && r !in s.creators && HasRoom(s.t, k)
       case Write(r, _, _) => Usable(s, r)
       case Resize(r, _) => Usable(s, r)
       case Flush(r) => Usable(s, r)
       case Release(r) => Usable(s, r)
       case RemoveBegin(thread, r) => thread !in s.removers && Usable(s, r)
       case RemoveDrop(thread) => thread in s.removers && s.removers[thread].Dropping?
       case RemoveFinish(thread) =>
         && thread in s.removers && s.removers[thread].Awaiting?
         && s.removers[thread].key in s.t.toRemove && s.t.toRemove[s.removers[thread].key].Fulfilled?
       case LookUp(thread, _) => thread !in s.removers
       case Register(thread) => thread in s.removers && s.removers[thread].FoundOpen?
       case RemoveClosed(thread) => thread in s.removers && s.removers[thread].FoundClosed?
  }

  /** A handle to what is open under `k` in `t`. */
  function AddRef(s: State, t: Table, r: nat, k: BlockId): State
    requires k in t.open
  {
    s.(t := t, refs := s.refs[r := Ref(k, t.open[k].res.uid, false)])
  }

  /** Destroying a handle; an exception there, or a key that is not open, ends the program. */
  function DropRef(s: State, r: nat): State
    requires r in s.refs
  {
    var k := s.refs[r].key;
    if k !in s.t.open || s.t.open[k].refCount == 0 then s.(terminated := true)
    else
      var (t, outcome) := ReleasedKey(s.t, k);
      if outcome == PromiseAlreadySatisfied then s.(terminated := true)
      else s.(t := t, refs := s.refs - {r})
  }

  /** Changes the block behind a handle. */
  function Update(s: State, r: nat, data: seq<byte>): State
    requires r in s.refs && s.refs[r].key in s.t.open
  {
    var k := s.refs[r].key;
    s.(t := WithBlock(s.t, k, s.t.open[k].res.(data := data, dirty := true)))
  }

  function Contents(s: State, r: nat): seq<byte> {
    if r in s.refs && s.refs[r].key in s.t.open then s.t.open[s.refs[r].key].res.data else []
  }

  predicate IsOpening(e: Event) {
    e.Load? || e.CreateCheck? || e.CreateStore? || e.CreateAdd? || e.Overwrite?
  }

  function OpenStep(s: State, e: Event): State
    requires Enabled(s, e) && IsOpening(e)
  {
    match e
    case Load(r, k) => var (t, ok) := Loaded(s.t, k); if ok then AddRef(s, t, r, k) else s
    case CreateCheck(r, k, data) =>
      if k in s.t.open then s else s.(creators := s.creators[r := Creation(k, data, false)])
    case CreateStore(r) =>
      var c := s.creators[r];
      if c.key in s.t.base then s.(creators := s.creators - {r})
      else s.(t := s.t.(base := s.t.base[c.key := c.data]), creators := s.creators[r := c.(stored := true)])
    case CreateAdd(r) =>
      var c := s.creators[r];
      var s' := s.(creators := s.creators - {r});
      if c.key in s.t.open then s'     // assertion failure; the new block is destroyed without being written
      else AddRef(s', Added(s.t, c.key, c.data), r, c.key)
    case Overwrite(r, k, data) => AddRef(s, OverwrittenIn(s.t, k, data), r, k)
  }

  function HandleStep(s: State, e: Event): State
    requires (e.Write? || e.Resize? || e.Flush? || e.Release?) && e.r in s.refs
  {
    if s.refs[e.r].key !in s.t.open then s.(terminated := true)
    else match e
      case Write(r, offset, src) =>
        if offset + |src| > |Contents(s, r)| then s else Update(s, r, WrittenAt(Contents(s, r), offset, src))
      case Resize(r, size) => Update(s, r, Resized(Contents(s, r), size))
      case Flush(r) => s.(t := Flushed(s.t, s.refs[r].key))
      case Release(r) => DropRef(s, r)
  }

  function RemoveStep(s: State, e: Event): State
    requires Enabled(s, e) && (e.RemoveBegin? || e.RemoveDrop? || e.RemoveFinish? || e.LookUp? || e.Register? || e.RemoveClosed?)
  {
    match e
    case RemoveBegin(thread, r) =>
      var k := s.refs[r].key;
      if k in s.t.toRemove then DropRef(s, r)     // assertion failure; unwinding destroys the handle
      else s.(t := s.t.(toRemove := s.t.toRemove[k := Waiting(thread)]),
              refs := s.refs[r := s.refs[r].(removing := true)],
              removers := s.removers[thread := Dropping(k, r)])
    case RemoveDrop(thread) =>
      var rm := s.removers[thread];
      if rm.ref !in s.refs then s.(terminated := true)
      else DropRef(s, rm.ref).(removers := s.removers[thread := Awaiting(rm.key)])
    case RemoveFinish(thread) => s.(t := Finished(s.t, s.removers[thread].key).0, removers := s.removers - {thread})
    case LookUp(thread, k) =>
      s.(removers := s.removers[thread := if k in s.t.open then FoundOpen(k) else FoundClosed(k)])
    case Register(thread) =>
      var k := s.removers[thread].key;
      if k in s.t.toRemove then s.(removers := s.removers - {thread})     // assertion failure
      else s.(t := s.t.(toRemove := s.t.toRemove[k := Waiting(thread)]), removers := s.removers[thread := Awaiting(k)])
    case RemoveClosed(thread) =>
      s.(t := s.t.(base := s.t.base - {s.removers[thread].key}), removers := s.removers - {thread})
  }

  function Apply(s: State, e: Event): State {
    if !Enabled(s, e) then s
    else if IsOpening(e) then OpenStep(s, e)
    else if e.Write? || e.Resize? || e.Flush? || e.Release? then HandleStep(s, e)
    else RemoveStep(s, e)
  }

  /** The window the source worries about: a block has been handed to its remover but is not yet off the list. */
  predicate InWindow(t: Table, k: BlockId) {
    k in t.toRemove && t.toRemove[k].Fulfilled?
  }

  /**
   A disciplined event does not open a block in the window, a removal by id does
   not hit a block that has been opened or handed over since it was looked up,
   and a creation finds its block as it has put it into the base store.
   */
  predicate Disciplined(s: State, e: Event) {
    match e
    case Load(_, k) => !InWindow(s.t, k)
    case Overwrite(_, k, _) => !InWindow(s.t, k)
    case CreateAdd(r) => r in s.creators ==> Undisturbed(s.t, s.creators[r].key, s.creators[r].data)
    case RemoveClosed(thread) =>
      thread in s.removers ==> s.removers[thread].key !in s.t.open && !InWindow(s.t, s.removers[thread].key)
    case _ => true
  }

  /** The block is in the base store with this data and nobody has it open. */
  predicate Undisturbed(t: Table, k: BlockId, data: seq<byte>) {
    k !in t.open && !InWindow(t, k) && k in t.base && t.base[k] == data
  }

  function Init(base: Blocks): State {
    State(Table(base, map[], map[], 0), map[], map[], map[], false)
  }

  function M(disciplined: bool, base: Blocks): Machine<State, Event> {
    Machine(Init(base), (s, e) => Enabled(s, e) && (disciplined ==> Disciplined(s, e)), (s, e) => Apply(s, e))
  }
}
