/**
 * The variable-size buffer of vpool.c.  Data sits in `base` from `start` on;
 * removing at the front only moves `start`.  `start` is the distance between the
 * source's `v_buf` and `v_basebuf`.  Running out of memory is not modelled.
 */
module VPool {
  import opened Octets
  import opened Common

  const SIZE_MAX: nat := 0xFFFF_FFFF_FFFF_FFFF

  datatype PoolError = NoError | TooBig | OutOfRange

  datatype TruncateMode = Exclude | Include

  // ----- the byte sequence the pool stands for

  function Clip(s: seq<byte>, at: nat): nat {
    if at > |s| then |s| else at
  }

  function Inserted(s: seq<byte>, at: nat, data: seq<byte>): seq<byte> {
    s[..Clip(s, at)] + data + s[Clip(s, at)..]
  }

  predicate CanTruncate(s: seq<byte>, at: nat, size: nat) {
    at < |s| && at + size <= |s|
  }

  function Truncated(s: seq<byte>, at: nat, size: nat, how: TruncateMode): seq<byte>
    requires CanTruncate(s, at, size)
  {
    if how == Exclude then s[..at] + s[at + size..] else s[at..at + size]
  }

  /** Removing what was inserted restores the sequence; keeping it yields the data. */
  lemma TruncateUndoesInsert(s: seq<byte>, at: nat, data: seq<byte>)
    requires data != []
    ensures
      var t := Inserted(s, at, data);
      && CanTruncate(t, Clip(s, at), |data|)
      && Truncated(t, Clip(s, at), |data|, Exclude) == s
      && Truncated(t, Clip(s, at), |data|, Include) == data
  {
  }

  /** Data goes in at the position, or behind everything if that lies beyond the end. */
  lemma InsertedAt(s: seq<byte>, at: nat, data: seq<byte>)
    ensures at >= |s| ==> Inserted(s, at, data) == s + data
    ensures at <= |s| ==>
              var t := Inserted(s, at, data);
              && |t| == |s| + |data|
              && t[..at] == s[..at] && t[at..at + |data|] == data && t[at + |data|..] == s[at..]
  {
  }

  datatype Operation =
    | InsertData(at: nat, data: seq<byte>)
    | ExpandBy(at: nat, gap: nat)
    | TruncateTo(at: nat, count: nat, how: TruncateMode)
    | WipeAll
    | ExportAll
  {
    /** How many bytes the operation asks room for. */
    function Size(): nat {
      match this
      case InsertData(_, data) => |data|
      case ExpandBy(_, gap) => gap
      case _ => 0
    }
  }

  /** The operation on a sequence; growing beyond the limit and truncating out of range do nothing. */
  ghost function Applied(s: seq<byte>, op: Operation, filler: seq<byte>, limit: nat): seq<byte> {
    match op
    case InsertData(at, data) => if |s| + |data| <= limit then Inserted(s, at, data) else s
    case ExpandBy(at, gap) => if |s| + gap <= limit then Inserted(s, at, filler) else s
    case TruncateTo(at, count, how) => if CanTruncate(s, at, count) then Truncated(s, at, count, how) else s
    case WipeAll => []
    case ExportAll => []
  }

  ghost function AppliedAll(s: seq<byte>, ops: seq<Operation>, fillers: seq<seq<byte>>, limit: nat): seq<byte>
    requires |ops| == |fillers|
  {
    if ops == [] then s
    else
      var n := |ops| - 1;
      Applied(AppliedAll(s, ops[..n], fillers[..n], limit), ops[n], fillers[n], limit)
  }

  lemma AppliedNext(s: seq<byte>, ops: seq<Operation>, fillers: seq<seq<byte>>, op: Operation, filler: seq<byte>,
                    limit: nat)
    requires |ops| == |fillers|
    ensures AppliedAll(s, ops + [op], fillers + [filler], limit) ==
            Applied(AppliedAll(s, ops, fillers, limit), op, filler, limit)
  {
  }

  ghost function Zeros(n: nat): (s: seq<byte>)
    ensures |s| == n
  {
    if n == 0 then [] else Zeros(n - 1) + [0]
  }

  // ----- buffers

  /** `s` with `n` bytes at `dst` replaced by those at `src`. */
  function Moved(s: seq<byte>, dst: nat, src: nat, n: nat): (r: seq<byte>)
    requires dst + n <= |s| && src + n <= |s|
    ensures |r| == |s|
  {
    s[..dst] + s[src..src + n] + s[dst + n..]
  }

  function Written(s: seq<byte>, at: nat, data: seq<byte>): (r: seq<byte>)
    requires at + |data| <= |s|
    ensures |r| == |s|
  {
    s[..at] + data + s[at + |data|..]
  }

  lemma MovedElements(s: seq<byte>, dst: nat, src: nat, n: nat)
    requires dst + n <= |s| && src + n <= |s|
    ensures
      var r := Moved(s, dst, src, n);
      forall i :: 0 <= i < |s| ==> r[i] == if dst <= i < dst + n then s[i - dst + src] else s[i]
  {
  }

  lemma WrittenElements(s: seq<byte>, at: nat, data: seq<byte>)
    requires at + |data| <= |s|
    ensures
      var r := Written(s, at, data);
      forall i :: 0 <= i < |s| ==> r[i] == if at <= i < at + |data| then data[i - at] else s[i]
  {
  }

  /** The data of a buffer. */
  function Slice(s: seq<byte>, start: nat, off: nat): (r: seq<byte>)
    requires start + off <= |s|
    ensures |r| == off
  {
    s[start..start + off]
  }

  /** Moving the tail up and writing the data in between inserts the data. */
  lemma InsertSplice(s: seq<byte>, start: nat, off: nat, at: nat, data: seq<byte>)
    requires start + off + |data| <= |s|
    ensures
      var p := if at > off then off else at;
      var moved := Moved(s, start + p + |data|, start + p, off - p);
      Slice(Written(moved, start + p, data), start, off + |data|) == Inserted(Slice(s, start, off), at, data)
  {
    var p := if at > off then off else at;
    var moved := Moved(s, start + p + |data|, start + p, off - p);
    MovedElements(s, start + p + |data|, start + p, off - p);
    WrittenElements(moved, start + p, data);
    hide Moved, Written;
    var after, was := Written(moved, start + p, data), Slice(s, start, off);
    var left, right := Slice(after, start, off + |data|), Inserted(was, at, data);
    forall i | 0 <= i < |left|
      ensures left[i] == right[i]
    {
      assert left[i] == after[start + i];
      if i < p {
        assert right[i] == was[i] == s[start + i];
      } else if i >= p + |data| {
        assert right[i] == was[i - |data|] == s[start + (i - |data|)];
      }
    }
  }

  lemma ExpandSplice(s: seq<byte>, start: nat, off: nat, at: nat, gap: nat)
    requires start + off + gap <= |s|
    ensures
      var p := if at > off then off else at;
      var moved := Moved(s, start + p + gap, start + p, off - p);
      Slice(moved, start, off + gap) == Inserted(Slice(s, start, off), at, Slice(moved, start + p, gap))
  {
  }

  lemma KeepSplice(s: seq<byte>, start: nat, off: nat, at: nat, count: nat)
    requires start + off <= |s| && at < off && at + count <= off
    ensures Slice(s, start + at, count) == Truncated(Slice(s, start, off), at, count, Include)
  {
    var was := Slice(s, start, off);
    var left, right := Slice(s, start + at, count), was[at..at + count];
    forall i | 0 <= i < count
      ensures left[i] == right[i]
    {
      assert right[i] == was[at + i] == s[start + (at + i)];
    }
  }

  /** At the front, moving the start removes what lies before it. */
  lemma FrontSplice(s: seq<byte>, start: nat, off: nat, count: nat)
    requires start + off <= |s| && 0 < off && count <= off
    ensures Slice(s, start + count, off - count) == Truncated(Slice(s, start, off), 0, count, Exclude)
  {
  }

  /** Elsewhere, moving the tail down does. */
  lemma CutSplice(s: seq<byte>, start: nat, off: nat, at: nat, count: nat)
    requires start + off <= |s| && at < off && at + count <= off
    ensures Slice(Moved(s, start + at, start + at + count, off - count - at), start, off - count)
              == Truncated(Slice(s, start, off), at, count, Exclude)
  {
  }

  /** The library's memmove within one array. */
  method Move(a: array<byte>, dst: nat, src: nat, n: nat)
    requires dst + n <= a.Length && src + n <= a.Length
    modifies a
    ensures a[..] == Moved(old(a[..]), dst, src, n)
  {
    forall i | 0 <= i < n {
      a[dst + i] := a[src + i];
    }
  }

  /** The library's memcpy into an array. */
  method Write(a: array<byte>, at: nat, data: seq<byte>)
    requires at + |data| <= a.Length
    modifies a
    ensures a[..] == Written(old(a[..]), at, data)
  {
    forall i | 0 <= i < |data| {
      a[at + i] := data[i];
    }
  }

  method InsertBytes(a: array<byte>, start: nat, off: nat, at: nat, data: seq<byte>)
    requires start + off + |data| <= a.Length
    modifies a
    ensures Slice(a[..], start, off + |data|) == Inserted(Slice(old(a[..]), start, off), at, data)
  {
    hide Moved, Written, Inserted, Slice;
    var p := if at > off then off else at;
    InsertSplice(a[..], start, off, at, data);
    Move(a, start + p + |data|, start + p, off - p);
    Write(a, start + p, data);
  }

  method OpenGap(a: array<byte>, start: nat, off: nat, at: nat, gap: nat) returns (ghost filler: seq<byte>)
    requires start + off + gap <= a.Length
    modifies a
    ensures |filler| == gap
    ensures Slice(a[..], start, off + gap) == Inserted(Slice(old(a[..]), start, off), at, filler)
  {
    hide Moved, Inserted, Slice;
    var p := if at > off then off else at;
    ExpandSplice(a[..], start, off, at, gap);
    Move(a, start + p + gap, start + p, off - p);
    filler := Slice(a[..], start + p, gap);
  }

  method CloseGap(a: array<byte>, start: nat, off: nat, at: nat, count: nat)
    requires start + off <= a.Length && at < off && at + count <= off
    modifies a
    ensures Slice(a[..], start, off - count) == Truncated(Slice(old(a[..]), start, off), at, count, Exclude)
  {
    hide Moved, Truncated, Slice;
    CutSplice(a[..], start, off, at, count);
    Move(a, start + at, start + at + count, off - count - at);
  }

  class Pool {
    var base: array?<byte>
    var start: nat
    var off: nat
    var size: nat
    const blksize: nat
    const limit: nat
    var lastError: PoolError

    ghost predicate Valid()
      reads this
    {
      && start + off <= size <= limit <= SIZE_MAX
      && 1 <= blksize <= SIZE_MAX
      && (base == null ==> size == 0)
      && (base != null ==> base.Length == size)
    }

    ghost function Contents(): seq<byte>
      requires Valid()
      reads this, base
    {
      if base == null then [] else Slice(base[..], start, off)
    }

    constructor (blksize: nat, limit: nat)
      requires blksize <= SIZE_MAX && limit <= SIZE_MAX
      ensures Valid() && Contents() == [] && base == null && lastError == NoError
      ensures this.limit == if limit == 0 then SIZE_MAX else limit
    {
      base, start, off, size := null, 0, 0, 0;
      this.blksize := if blksize == 0 then 4096 else blksize;
      this.limit := if limit == 0 then SIZE_MAX else limit;
      lastError := NoError;
    }

    method Shift()
      requires Valid()
      modifies this`start, base
      ensures Valid() && start == 0 && Contents() == old(Contents())
    {
      if start != 0 && base != null {
        Move(base, 0, start, off);
        assert Slice(base[..], 0, off) == Slice(old(base[..]), start, off);
      }
      start := 0;
    }

    /** The capacity for `need` more bytes: unchanged, rounded up to blocks, or the limit. */
    method NewSize(datsize: nat) returns (error: PoolError, newSize: nat)
      requires Valid() && datsize + blksize <= SIZE_MAX
      ensures error == if off + datsize > limit then TooBig else NoError
      ensures error == NoError ==> size <= newSize <= limit && off + datsize <= newSize
      ensures error == NoError ==>
                if off + datsize <= size then newSize == size
                else
                  var blocks := (off + datsize + blksize - 1) / blksize;
                  newSize == if blocks * blksize <= limit then blocks * blksize else limit
    {
      newSize := size;
      error := NoError;
      if datsize <= size - off {
        return;
      }
      if limit - off < datsize {
        error := TooBig;
        return;
      }
      newSize := off + datsize;
      var rem := newSize % blksize;
      RoundUp(newSize, blksize);
      if rem != 0 {
        if limit - off >= datsize + (blksize - rem) {
          newSize := newSize + (blksize - rem);
        } else {
          newSize := limit;
        }
      }
    }

    /** A larger buffer with the data moved to its front. */
    method Grow(newSize: nat)
      requires Valid() && size < newSize <= limit
      modifies this`base, this`start, this`size
      ensures Valid() && Contents() == old(Contents())
      ensures start == 0 && size == newSize && fresh(base)
    {
      var grown := new byte[newSize];
      if base != null {
        forall i | 0 <= i < off {
          grown[i] := base[start + i];
        }
        assert Slice(grown[..], 0, off) == Slice(base[..], start, off);
      }
      base, start, size := grown, 0, newSize;
    }

    /** Make room for `datsize` more bytes behind the data. */
    method Resize(datsize: nat) returns (error: PoolError)
      requires Valid() && datsize + blksize <= SIZE_MAX
      modifies this`base, this`start, this`size, base
      ensures Valid() && Contents() == old(Contents())
      ensures error == if off + datsize > limit then TooBig else NoError
      ensures error == NoError ==> start + off + datsize <= size
      ensures base == null ==> old(base) == null
      ensures base == old(base) || fresh(base)
    {
      var newSize;
      error, newSize := NewSize(datsize);
      if error != NoError {
        return;
      }
      if newSize > size {
        Grow(newSize);
      } else if (size - off) - start < datsize {
        Shift();
      }
    }

    /**
     * The result is a position in the data; `None` is the null pointer.  Null is
     * also what comes back, without an error, as long as there is no buffer: for
     * empty data in a pool that never held any.
     */
    method Insert(at: nat, data: seq<byte>) returns (pointer: Option<nat>)
      requires Valid() && |data| + blksize <= SIZE_MAX
      modifies this, base
      ensures Valid()
      ensures
        var fits := |old(Contents())| + |data| <= limit;
        && Contents() == (if fits then Inserted(old(Contents()), at, data) else old(Contents()))
        && lastError == (if fits then NoError else TooBig)
        && pointer == (if fits && base != null then Some(Clip(old(Contents()), at)) else None)
        && (fits && base == null ==> data == [] && old(base) == null)
      ensures base == old(base) || fresh(base)
    {
      var error := Resize(|data|);
      if error != NoError {
        lastError := error;
        return None;
      }
      var where := if at > off then off else at;
      Splice(at, data);
      lastError := NoError;
      pointer := if base == null then None else Some(where);
    }

    /** Put the data in, once there is room behind the present data. */
    method Splice(at: nat, data: seq<byte>)
      requires Valid() && start + off + |data| <= size
      modifies this`off, base
      ensures Valid() && Contents() == Inserted(old(Contents()), at, data)
    {
      if base == null {
        assert data == [];
        return;
      }
      hide Inserted, Slice;
      InsertBytes(base, start, off, at, data);
      off := off + |data|;
    }

    /** Open a gap of `gap` bytes whose values are unspecified. */
    method Expand(at: nat, gap: nat) returns (pointer: Option<nat>, ghost filler: seq<byte>)
      requires Valid() && gap + blksize <= SIZE_MAX
      modifies this, base
      ensures Valid() && |filler| == gap
      ensures
        var fits := |old(Contents())| + gap <= limit;
        && Contents() == (if fits then Inserted(old(Contents()), at, filler) else old(Contents()))
        && lastError == (if fits then NoError else TooBig)
        && pointer == (if fits && base != null then Some(Clip(old(Contents()), at)) else None)
        && (fits && base == null ==> gap == 0 && old(base) == null)
      ensures base == old(base) || fresh(base)
    {
      filler := Zeros(gap);
      var error := Resize(gap);
      if error != NoError {
        lastError := error;
        return None, filler;
      }
      var where := if at > off then off else at;
      filler := Gap(at, gap);
      lastError := NoError;
      pointer := if base == null then None else Some(where);
    }

    method Gap(at: nat, gap: nat) returns (ghost filler: seq<byte>)
      requires Valid() && start + off + gap <= size
      modifies this`off, base
      ensures Valid() && |filler| == gap && Contents() == Inserted(old(Contents()), at, filler)
    {
      filler := [];
      if base == null {
        assert gap == 0;
        return;
      }
      hide Inserted, Slice;
      filler := OpenGap(base, start, off, at, gap);
      off := off + gap;
    }

    method Truncate(at: nat, count: nat, how: TruncateMode) returns (error: PoolError)
      requires Valid()
      modifies this`start, this`off, this`lastError, base
      ensures Valid()
      ensures
        var length := |old(Contents())|;
        error == lastError == if at < length && at + count <= length then NoError else OutOfRange
      ensures Contents() == if error == NoError then Truncated(old(Contents()), at, count, how) else old(Contents())
    {
      if at >= off || count > off || off - count < at {
        lastError := OutOfRange;
        return lastError;
      }
      if how == Exclude {
        Cut(at, count);
      } else {
        Keep(at, count);
      }
      lastError := NoError;
      error := NoError;
    }

    method Cut(at: nat, count: nat)
      requires Valid() && at < off && at + count <= off
      modifies this`start, this`off, base
      ensures Valid() && Contents() == Truncated(old(Contents()), at, count, Exclude)
    {
      hide Truncated, Slice;
      if at == 0 {
        FrontSplice(base[..], start, off, count);
        start := start + count;
      } else {
        CloseGap(base, start, off, at, count);
      }
      off := off - count;
    }

    method Keep(at: nat, count: nat)
      requires Valid() && at < off && at + count <= off
      modifies this`start, this`off
      ensures Valid() && Contents() == Truncated(old(Contents()), at, count, Include)
    {
      hide Truncated, Slice;
      KeepSplice(base[..], start, off, at, count);
      start := start + at;
      off := count;
    }

    method Wipe()
      requires Valid()
      modifies this`off, this`lastError
      ensures Valid() && Contents() == [] && lastError == NoError
    {
      off := 0;
      lastError := NoError;
    }

    /**
     * Any run of operations does to the contents what the same splices do to a
     * sequence; `fillers` are the bytes that the expansions happened to expose.
     */
    method Perform(ops: seq<Operation>) returns (ghost fillers: seq<seq<byte>>)
      requires Valid() && forall i :: 0 <= i < |ops| ==> ops[i].Size() + blksize <= SIZE_MAX
      modifies this, base
      ensures Valid() && |fillers| == |ops|
      ensures forall i :: 0 <= i < |ops| ==> |fillers[i]| == ops[i].Size()
      ensures Contents() == AppliedAll(old(Contents()), ops, fillers, limit)
    {
      fillers := [];
      ghost var first := Contents();
      assert AppliedAll(first, [], [], limit) == first;
      hide AppliedAll, Applied, Slice;
      for i := 0 to |ops|
        invariant Valid() && |fillers| == i && (base == null || base == old(base) || fresh(base))
        invariant forall j :: 0 <= j < i ==> |fillers[j]| == ops[j].Size()
        invariant Contents() == AppliedAll(first, ops[..i], fillers, limit)
      {
        ghost var filler := Apply(ops[i]);
        AppliedNext(first, ops[..i], fillers, ops[i], filler, limit);
        assert ops[..i + 1] == ops[..i] + [ops[i]];
        fillers := fillers + [filler];
      }
      assert ops[..|ops|] == ops;
    }

    method Apply(op: Operation) returns (ghost filler: seq<byte>)
      requires Valid() && op.Size() + blksize <= SIZE_MAX
      modifies this, base
      ensures Valid() && |filler| == op.Size() && (base == null || base == old(base) || fresh(base))
      ensures Contents() == Applied(old(Contents()), op, filler, limit)
    {
      hide Inserted, Truncated, Slice;
      filler := Zeros(op.Size());
      match op {
        case InsertData(at, data) =>
          var _ := Insert(at, data);
        case ExpandBy(at, gap) =>
          var _, f := Expand(at, gap);
          filler := f;
        case TruncateTo(at, count, how) =>
          var _ := Truncate(at, count, how);
        case WipeAll =>
          Wipe();
        case ExportAll =>
          var _, _ := Export();
      }
    }

    /** Hand the buffer to the caller, data first, and start over. */
    method Export() returns (buffer: array?<byte>, length: nat)
      requires Valid()
      modifies this, base
      ensures Valid() && Contents() == [] && base == null && lastError == NoError
      ensures buffer == old(base) && length == |old(Contents())|
      ensures if buffer == null then length == 0 else length <= buffer.Length && buffer[..length] == old(Contents())
    {
      Shift();
      buffer, length := base, off;
      base, start, off, size := null, 0, 0, 0;
      lastError := NoError;
    }
  }

  /** Rounding up to whole blocks by way of the remainder. */
  lemma RoundUp(n: nat, blksize: nat)
    requires 1 <= blksize
    ensures
      var rem, blocks := n % blksize, (n + blksize - 1) / blksize;
      blocks * blksize == if rem == 0 then n else n + (blksize - rem)
  {
    var q, rem := n / blksize, n % blksize;
    assert n == q * blksize + rem;
    if rem == 0 {
      Quotient(n + blksize - 1, q, blksize, blksize - 1);
    } else {
      assert (q + 1) * blksize == q * blksize + blksize;
      Quotient(n + blksize - 1, q + 1, blksize, rem - 1);
    }
  }

  lemma Quotient(n: nat, q: nat, d: nat, r: nat)
    requires r < d && n == q * d + r
    ensures n / d == q
  {
    var e := n / d;
    assert n == e * d + n % d;
    MoreBlocks(e + 1, q, d);
    MoreBlocks(q + 1, e, d);
  }

  lemma MoreBlocks(a: nat, b: nat, d: nat)
    ensures a <= b ==> a * d <= b * d
  {
  }
}
