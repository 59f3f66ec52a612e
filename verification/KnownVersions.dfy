/**
 A client's memory of the block versions it has seen: for every client and block
 the highest version, and for every block the client that updated it last.
 */
module KnownVersions {
  import opened Bytes

  /** Client id 0 marks a deleted block. */
  const DELETED: U32 := 0

  datatype ClientAndBlock = ClientAndBlock(client: U32, block: BlockId)

  datatype Known = Known(
    me: U32,
    violation: bool,                          // an integrity violation was seen, now or in an earlier run
    versions: map<ClientAndBlock, U64>,
    last: map<BlockId, U32>)

  datatype Verdict = Accepted | RolledBack | Superseded | AssertionFailed

  /** A missing entry reads as 0. */
  function VersionOf(k: Known, c: U32, b: BlockId): U64 {
    if ClientAndBlock(c, b) in k.versions then k.versions[ClientAndBlock(c, b)] else 0
  }

  function LastOf(k: Known, b: BlockId): U32 {
    if b in k.last then k.last[b] else DELETED
  }

  function Check(k: Known, c: U32, b: BlockId, v: U64): (Known, Verdict) {
    if c == DELETED || v == 0 then (k, AssertionFailed)
    else
      var key := ClientAndBlock(c, b);
      var found := VersionOf(k, c, b);
      if found > v then (k, RolledBack)
      else
        var last := LastOf(k, b);
        if found == v && last != c then (k.(last := k.last[b := last]), Superseded)
        else (k.(versions := k.versions[key := v], last := k.last[b := c]), Accepted)
  }

  /** The addition is modulo 2^64; only the value 2^64-1 is refused. */
  function Next(found: U64): U64 {
    if found == U64_MAX then 0 else found + 1
  }

  /** `None` is the version-overflow exception. */
  function Increment(k: Known, b: BlockId): (Known, Option<U64>) {
    var v := Next(VersionOf(k, k.me, b));
    if v == U64_MAX then (k, None)
    else (k.(versions := k.versions[ClientAndBlock(k.me, b) := v], last := k.last[b := k.me]), Some(v))
  }

  function MarkDeleted(k: Known, b: BlockId): Known {
    k.(last := k.last[b := DELETED])
  }

  predicate ShouldExist(k: Known, b: BlockId) {
    b in k.last && k.last[b] != DELETED
  }

  function Existing(k: Known): set<BlockId> {
    set b | b in k.last && k.last[b] != DELETED
  }

  /** Exactly which presented versions are accepted. */
  lemma {:induction false} AcceptedIff(k: Known, c: U32, b: BlockId, v: U64)
    ensures Check(k, c, b, v).1 == Accepted <==>
      c != DELETED && v > 0 && (VersionOf(k, c, b) < v || (VersionOf(k, c, b) == v && LastOf(k, b) == c))
  {
  }

  /** A check changes what is known about one block only, and only if it accepts. */
  lemma {:induction false} CheckEffect(k: Known, c: U32, b: BlockId, v: U64, c': U32, b': BlockId)
    ensures var t := Check(k, c, b, v);
      && t.0.me == k.me && t.0.violation == k.violation
      && VersionOf(t.0, c', b') == (if t.1 == Accepted && c' == c && b' == b then v else VersionOf(k, c', b'))
      && LastOf(t.0, b') == (if t.1 == Accepted && b' == b then c else LastOf(k, b'))
  {
  }

  lemma {:induction false} IncrementEffect(k: Known, b: BlockId, c': U32, b': BlockId)
    ensures var t := Increment(k, b);
      && t.0.me == k.me && t.0.violation == k.violation
      && (t.1 == None <==> VersionOf(k, k.me, b) + 1 == U64_MAX)
      && (t.1 == None ==> t.0 == k)
      && (t.1 != None ==>
            && t.1.value == Next(VersionOf(k, k.me, b))
            && VersionOf(t.0, c', b') == (if c' == k.me && b' == b then t.1.value else VersionOf(k, c', b'))
            && LastOf(t.0, b') == (if b' == b then k.me else LastOf(k, b')))
  {
  }

  lemma {:induction false} MarkDeletedEffect(k: Known, b: BlockId, c': U32, b': BlockId)
    ensures var t := MarkDeleted(k, b);
      && t.me == k.me && t.violation == k.violation && VersionOf(t, c', b') == VersionOf(k, c', b')
      && LastOf(t, b') == (if b' == b then DELETED else LastOf(k, b')) && t.last.Keys == k.last.Keys + {b}
  {
  }

  /** A block should exist exactly if its last known update was not its deletion. */
  lemma {:induction false} ExistingIff(k: Known, b: BlockId)
    ensures b in Existing(k) <==> LastOf(k, b) != DELETED
    ensures ShouldExist(k, b) <==> LastOf(k, b) != DELETED
  {
  }

  /**
   `incrementVersion` is meant to make the version larger.  It fails to exactly
   when the known version is 2^64-1: the addition wraps past the overflow test.
   */
  lemma {:induction false} IncrementGrowsIff(k: Known, b: BlockId)
    requires Increment(k, b).1 != None
    ensures VersionOf(Increment(k, b).0, k.me, b) > VersionOf(k, k.me, b) <==> VersionOf(k, k.me, b) != U64_MAX
  {
  }

  /** The wrap-around in action: an accepted maximal version, one increment, and version 1 is accepted again. */
  lemma {:induction false} IncrementWraps(me: U32, b: BlockId)
    requires me != DELETED
    ensures var k0 := Known(me, false, map[], map[]);
      var (k1, v1) := Check(k0, me, b, U64_MAX);
      var (k2, v2) := Increment(k1, b);
      v1 == Accepted && v2 == Some(0) && Check(k2, me, b, 1).1 == Accepted
  {
  }

  /** The object the source keeps in memory; `State` is its abstract value. */
  class KnownBlockVersions {
    const me: U32
    var violation: bool
    var versions: map<ClientAndBlock, U64>
    var last: map<BlockId, U32>

    ghost function State(): Known
      reads this
    {
      Known(me, violation, versions, last)
    }

    constructor (me: U32, violation: bool, versions: map<ClientAndBlock, U64>, last: map<BlockId, U32>)
      requires me != DELETED
      ensures State() == Known(me, violation, versions, last)
    {
      this.me, this.violation, this.versions, this.last := me, violation, versions, last;
    }

    method CheckAndUpdateVersion(c: U32, b: BlockId, v: U64) returns (verdict: Verdict)
      modifies this
      ensures (State(), verdict) == Check(old(State()), c, b, v)
      ensures verdict == Accepted <==>
        c != DELETED && v > 0
        && (VersionOf(old(State()), c, b) < v || (VersionOf(old(State()), c, b) == v && LastOf(old(State()), b) == c))
    {
      if c == DELETED { return AssertionFailed; }
      if v == 0 { return AssertionFailed; }
      var key := ClientAndBlock(c, b);
      if key !in versions {
        versions := versions[key := 0];
      }
      if versions[key] > v { return RolledBack; }
      if b !in last {
        last := last[b := DELETED];
      }
      assert last == old(last)[b := LastOf(old(State()), b)];
      if versions[key] == v && last[b] != c { return Superseded; }
      versions := versions[key := v];
      last := last[b := c];
      assert versions == old(versions)[key := v] && last == old(last)[b := c];
      return Accepted;
    }

    method IncrementVersion(b: BlockId) returns (r: Option<U64>)
      modifies this
      ensures (State(), r) == Increment(old(State()), b)
    {
      var key := ClientAndBlock(me, b);
      var found: int := if key in versions then versions[key] else 0;
      var newVersion: U64 := (found + 1) % 0x1_0000_0000_0000_0000;
      if newVersion == U64_MAX { return None; }
      versions := versions[key := newVersion];
      last := last[b := me];
      return Some(newVersion);
    }

    method MarkBlockAsDeleted(b: BlockId)
      modifies this
      ensures State() == MarkDeleted(old(State()), b)
    {
      last := last[b := DELETED];
    }

    method BlockShouldExist(b: BlockId) returns (r: bool)
      ensures r <==> b in Existing(State())
    {
      if b !in last { return false; }
      return last[b] != DELETED;
    }

    method ExistingBlocks() returns (r: set<BlockId>)
      ensures r == Existing(State())
    {
      r := {};
      var todo := last.Keys;
      while todo != {}
        invariant todo <= last.Keys
        invariant r == set b | b in last && b !in todo && last[b] != DELETED
        decreases |todo|
      {
        var b :| b in todo;
        todo := todo - {b};
        if last[b] != DELETED {
          r := r + {b};
        }
      }
    }
  }
}
