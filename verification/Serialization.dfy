/** The cursor-based writer and reader that state files are made with. */
module Serialization {
  import opened Bytes

  class Serializer {
    const buffer: array<byte>
    var pos: nat

    ghost predicate Valid()
      reads this
    {
      pos <= buffer.Length
    }

    ghost function Written(): seq<byte>
      reads this, buffer
      requires Valid()
    {
      buffer[..pos]
    }

    constructor (size: nat)
      ensures Valid() && fresh(buffer) && buffer.Length == size && Written() == []
    {
      buffer := new byte[size];
      pos := 0;
    }

    /** Copies `data` to the cursor; `ok` is false for the size-overflow exception. */
    method WriteData(data: seq<byte>) returns (ok: bool)
      requires Valid()
      modifies this`pos, buffer
      ensures Valid()
      ensures ok <==> old(pos) + |data| <= buffer.Length
      ensures Written() == if ok then old(Written()) + data else old(Written())
    {
      if pos + |data| > buffer.Length { return false; }
      forall i | 0 <= i < |data| {
        buffer[pos + i] := data[i];
      }
      pos := pos + |data|;
      return true;
    }

    method WriteUint(n: nat, width: nat) returns (ok: bool)
      requires Valid()
      modifies this`pos, buffer
      ensures Valid()
      ensures ok <==> old(pos) + width <= buffer.Length
      ensures Written() == if ok then old(Written()) + Encode(n, width) else old(Written())
    {
      ok := WriteData(Encode(n, width));
    }

    method WriteBool(b: bool) returns (ok: bool)
      requires Valid()
      modifies this`pos, buffer
      ensures Valid()
      ensures ok <==> old(pos) + 1 <= buffer.Length
      ensures Written() == if ok then old(Written()) + EncodeBool(b) else old(Written())
    {
      ok := WriteUint(if b then 1 else 0, 1);
    }

    /** A string is written with its terminating null byte. */
    method WriteString(s: seq<byte>) returns (ok: bool)
      requires Valid()
      modifies this`pos, buffer
      ensures Valid()
      ensures ok <==> old(pos) + |s| + 1 <= buffer.Length
      ensures Written() == if ok then old(Written()) + s + [0] else old(Written())
    {
      ok := WriteData(s + [0]);
      assert old(Written()) + (s + [0]) == old(Written()) + s + [0];
    }

    /** `None` is the exception for a buffer that was not filled exactly. */
    method Finished() returns (r: Option<seq<byte>>)
      requires Valid()
      ensures r == if pos == buffer.Length then Some(Written()) else None
    {
      if pos != buffer.Length { return None; }
      assert buffer[..] == buffer[..pos];
      return Some(buffer[..]);
    }
  }

  function EncodeBool(b: bool): seq<byte> {
    Encode(if b then 1 else 0, 1)
  }

  /**
   Result of a read at a cursor: a value and the new cursor, an exception, or a
   copy from beyond the end of the source, which the source program does not check for.
   */
  datatype Parsed<+T> = Ok(value: T, next: nat) | Throws | OutOfBounds

  function UintAt(src: seq<byte>, pos: nat, width: nat): Parsed<nat> {
    if pos + width > |src| then Throws else Ok(Decode(src[pos..pos + width]), pos + width)
  }

  function FixedAt(src: seq<byte>, pos: nat, size: nat): Parsed<seq<byte>> {
    if pos + size > |src| then OutOfBounds else Ok(src[pos..pos + size], pos + size)
  }

  function BoolAt(src: seq<byte>, pos: nat): Parsed<bool> {
    match UintAt(src, pos, 1)
    case Ok(n, next) => if n == 1 then Ok(true, next) else if n == 0 then Ok(false, next) else Throws
    case Throws => Throws
    case OutOfBounds => OutOfBounds
  }

  /** Reads up to the first null byte and skips it. */
  function StringAt(src: seq<byte>, pos: nat): Parsed<seq<byte>>
    requires pos <= |src|
    decreases |src| - pos
  {
    if pos == |src| then Throws
    else if src[pos] == 0 then Ok([], pos + 1)
    else match StringAt(src, pos + 1)
      case Ok(s, next) => Ok([src[pos]] + s, next)
      case Throws => Throws
      case OutOfBounds => OutOfBounds
  }

  class Deserializer {
    const source: seq<byte>
    var pos: nat

    ghost predicate Valid()
      reads this
    {
      pos <= |source|
    }

    constructor (source: seq<byte>)
      ensures Valid() && pos == 0 && this.source == source
    {
      this.source := source;
      pos := 0;
    }

    method ReadUint(width: nat) returns (r: Parsed<nat>)
      requires Valid()
      modifies this
      ensures Valid() && r == UintAt(source, old(pos), width) && (r.Ok? ==> pos == r.next)
    {
      if pos + width > |source| { return Throws; }
      r := Ok(Decode(source[pos..pos + width]), pos + width);
      pos := pos + width;
    }

    method ReadFixed(size: nat) returns (r: Parsed<seq<byte>>)
      requires Valid()
      modifies this
      ensures Valid() && r == FixedAt(source, old(pos), size) && (r.Ok? ==> pos == r.next)
    {
      if pos + size > |source| { return OutOfBounds; }
      r := Ok(source[pos..pos + size], pos + size);
      pos := pos + size;
    }

    method ReadBool() returns (r: Parsed<bool>)
      requires Valid()
      modifies this
      ensures Valid() && r == BoolAt(source, old(pos)) && (r.Ok? ==> pos == r.next)
    {
      var n := ReadUint(1);
      if !n.Ok? { return Throws; }
      if n.value == 1 { return Ok(true, pos); }
      if n.value == 0 { return Ok(false, pos); }
      return Throws;
    }

    /** The search for the null byte is a loop here, as `memchr` is. */
    method ReadString() returns (r: Parsed<seq<byte>>)
      requires Valid()
      modifies this
      ensures Valid() && r == StringAt(source, old(pos)) && (r.Ok? ==> pos == r.next)
    {
      var end := pos;
      while end < |source| && source[end] != 0
        invariant pos <= end <= |source|
        invariant forall i | pos <= i < end :: source[i] != 0
      {
        end := end + 1;
      }
      StringUpTo(source, pos, end);
      if end == |source| { return Throws; }
      r := Ok(source[pos..end], end + 1);
      pos := end + 1;
    }

    method Finished() returns (ok: bool)
      ensures ok <==> pos == |source|
    {
      ok := pos == |source|;
    }
  }

  /** The string at a cursor is what lies before the first null byte. */
  lemma {:induction false} StringUpTo(src: seq<byte>, pos: nat, end: nat)
    requires pos <= end <= |src| && forall i | pos <= i < end :: src[i] != 0
    requires end == |src| || src[end] == 0
    ensures StringAt(src, pos) == if end == |src| then Throws else Ok(src[pos..end], end + 1)
    decreases end - pos
  {
    if pos < end {
      StringUpTo(src, pos + 1, end);
      assert src[pos..end] == [src[pos]] + src[pos + 1..end];
    } else {
      assert src[pos..end] == [];
    }
  }

  /** Conversely, a string that was read is null-free and was followed by a null byte. */
  lemma {:induction false} StringWas(src: seq<byte>, pos: nat)
    requires pos <= |src| && StringAt(src, pos).Ok?
    ensures var Ok(s, next) := StringAt(src, pos);
      pos < next <= |src| && src[pos..next] == s + [0]
    decreases |src| - pos
  {
    if src[pos] != 0 {
      StringWas(src, pos + 1);
      var next := StringAt(src, pos).next;
      assert src[pos..next] == [src[pos]] + src[pos + 1..next];
    }
  }
}
