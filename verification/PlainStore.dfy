/**
 The store that keeps blocks in memory.  It is the plain map from ids to bytes
 that the faster stores have to agree with.
 */
module PlainStore {
  import opened Bytes

  type Blocks = map<BlockId, seq<byte>>

  /** What can be asked of a store; `Evict` is a cache's own doing and nothing to the map. */
  datatype Event =
    | Create(b: BlockId, data: seq<byte>)
    | Put(b: BlockId, data: seq<byte>)
    | Get(b: BlockId)
    | Remove(b: BlockId)
    | Evict(b: BlockId)

  /** What the caller sees; `Thrown` is an exception. */
  datatype Out = Done | Flag(ok: bool) | Found(data: Option<seq<byte>>) | Thrown

  function PlainStep(m: Blocks, e: Event): Blocks {
    match e
    case Create(b, data) => if b in m then m else m[b := data]
    case Put(b, data) => m[b := data]
    case Get(_) => m
    case Remove(b) => m - {b}
    case Evict(_) => m
  }

  function PlainOut(m: Blocks, e: Event): Out {
    match e
    case Create(b, _) => Flag(b !in m)
    case Put(_, _) => Done
    case Get(b) => Found(if b in m then Some(m[b]) else None)
    case Remove(b) => Flag(b in m)
    case Evict(_) => Done
  }

  method Enumerate(ids: set<BlockId>) returns (r: seq<BlockId>)
    ensures multiset(r) == multiset(ids)
  {
    r := [];
    var todo := ids;
    while todo != {}
      invariant todo <= ids && multiset(r) + multiset(todo) == multiset(ids)
      decreases |todo|
    {
      var b :| b in todo;
      assert multiset(todo) == multiset(todo - {b}) + multiset{b};
      todo, r := todo - {b}, r + [b];
    }
  }

  class InMemoryBlockStore {
    var blocks: Blocks

    constructor ()
      ensures blocks == map[]
    {
      blocks := map[];
    }

    method TryCreate(b: BlockId, data: seq<byte>) returns (ok: bool)
      modifies this
      ensures blocks == PlainStep(old(blocks), Create(b, data)) && Flag(ok) == PlainOut(old(blocks), Create(b, data))
    {
      ok := b !in blocks;
      if ok {
        blocks := blocks[b := data];
      }
    }

    method RemoveBlock(b: BlockId) returns (existed: bool)
      modifies this
      ensures blocks == PlainStep(old(blocks), Remove(b)) && Flag(existed) == PlainOut(old(blocks), Remove(b))
    {
      if b !in blocks {
        assert blocks == blocks - {b};
        return false;
      }
      blocks := blocks - {b};
      return true;
    }

    method Load(b: BlockId) returns (r: Option<seq<byte>>)
      ensures Found(r) == PlainOut(blocks, Get(b))
    {
      if b !in blocks { return None; }
      return Some(blocks[b]);
    }

    /** Never throws: a block that is not there can be created. */
    method Store(b: BlockId, data: seq<byte>) returns (out: Out)
      modifies this
      ensures blocks == PlainStep(old(blocks), Put(b, data)) && out == PlainOut(old(blocks), Put(b, data))
    {
      if b !in blocks {
        var ok := TryCreate(b, data);
        out := if ok then Done else Thrown;
      } else {
        blocks := blocks[b := data];
        out := Done;
      }
    }

    /** The callback runs once for every block. */
    method ForEachBlock() returns (visited: seq<BlockId>)
      ensures multiset(visited) == multiset(blocks.Keys)
    {
      visited := Enumerate(blocks.Keys);
    }
  }
}
