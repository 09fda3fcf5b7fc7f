/**
 The sparse offset index: a memory-mapped byte array of 8-byte entries
 (relative offset, file position), searched by bisection and doubled when full.
 */
module OffsetIndexing {
  import opened Bytes

  datatype IndexEntry = IndexEntry(relativeOffset: int, position: int)

  function EntryAt(bytes: seq<Byte>, i: nat): IndexEntry
    requires 8 * i + 8 <= |bytes|
  {
    IndexEntry(UnsignedAt(bytes, 8 * i, 4), UnsignedAt(bytes, 8 * i + 4, 4))
  }

  function EntriesOf(bytes: seq<Byte>, n: nat): (es: seq<IndexEntry>)
    requires 8 * n <= |bytes|
    ensures |es| == n
  {
    seq(n, i requires 0 <= i < n => EntryAt(bytes, i))
  }

  predicate Sorted(es: seq<IndexEntry>) {
    forall i, j | 0 <= i < j < |es| :: es[i].relativeOffset < es[j].relativeOffset
  }

  /** How many leading entries lie at or below `relative`, found from the back. */
  function FloorCount(es: seq<IndexEntry>, relative: int): (c: nat)
    ensures c <= |es|
    ensures c > 0 ==> es[c - 1].relativeOffset <= relative
    ensures forall i | c <= i < |es| :: relative < es[i].relativeOffset
  {
    if es == [] then 0
    else if es[|es| - 1].relativeOffset <= relative then |es|
    else FloorCount(es[..|es| - 1], relative)
  }

  lemma FloorUnique(es: seq<IndexEntry>, relative: int, c: nat)
    requires Sorted(es) && c <= |es|
    requires c > 0 ==> es[c - 1].relativeOffset <= relative
    requires c < |es| ==> relative < es[c].relativeOffset
    ensures FloorCount(es, relative) == c
  {
  }

  lemma FloorExact(es: seq<IndexEntry>, i: nat)
    requires Sorted(es) && i < |es|
    ensures FloorCount(es, es[i].relativeOffset) == i + 1
  {
    FloorUnique(es, es[i].relativeOffset, i + 1);
  }

  /** Position of the last entry at or below `relative`; the start of the file when there is none. */
  function FloorPosition(es: seq<IndexEntry>, relative: int): int {
    var c := FloorCount(es, relative);
    if c == 0 then 0 else es[c - 1].position
  }

  /** Bytes that keep every entry keep the entry list. */
  lemma EntriesAgree(old_: seq<Byte>, new_: seq<Byte>, n: nat)
    requires 8 * n <= |old_| && 8 * n <= |new_| && old_[..8 * n] == new_[..8 * n]
    ensures EntriesOf(old_, n) == EntriesOf(new_, n)
  {
    forall i | 0 <= i < n ensures EntryAt(old_, i) == EntryAt(new_, i) {
      assert old_[8 * i..8 * i + 4] == old_[..8 * n][8 * i..8 * i + 4] == new_[8 * i..8 * i + 4];
      assert old_[8 * i + 4..8 * i + 8] == old_[..8 * n][8 * i + 4..8 * i + 8] == new_[8 * i + 4..8 * i + 8];
    }
  }

  lemma EntryWritten(bytes: seq<Byte>, i: nat, relative: int, position: int)
    requires 8 * i + 8 <= |bytes|
    requires bytes[8 * i..8 * i + 8] == PutBE(4, relative) + PutBE(4, position)
    ensures EntryAt(bytes, i) == IndexEntry(Wrap32(relative), Wrap32(position))
  {
    var e := bytes[8 * i..8 * i + 8];
    assert bytes[8 * i..8 * i + 4] == e[..4] == PutBE(4, relative);
    assert bytes[8 * i + 4..8 * i + 8] == e[4..] == PutBE(4, position);
    Widths();
    GetPut(4, relative);
    GetPut(4, position);
  }

  class OffsetIndex {
    const baseOffset: int
    var mmap: array<Byte>
    var size: nat
    var entryCount: nat

    ghost predicate Valid()
      reads this
    {
      && size == mmap.Length
      && 8 <= size
      && size % 8 == 0
      && 8 * entryCount <= size
    }

    ghost function Entries(): (es: seq<IndexEntry>)
      requires Valid()
      reads this, mmap
      ensures |es| == entryCount
    {
      EntriesOf(mmap[..], entryCount)
    }

    /** Maps a file of `fileSize` bytes (a fresh, empty file is first extended to 1 MiB); no entry is trusted. */
    constructor (baseOffset: int, fileSize: nat)
      requires fileSize % 8 == 0
      ensures Valid() && fresh(mmap)
      ensures this.baseOffset == baseOffset
      ensures Entries() == []
    {
      this.baseOffset := baseOffset;
      var n := if fileSize == 0 then 1024 * 1024 else fileSize;
      mmap := new Byte[n];
      size := n;
      entryCount := 0;
    }

    method Append(offset: int, position: int)
      requires Valid()
      modifies this, mmap
      ensures Valid() && (mmap == old(mmap) || fresh(mmap))
      ensures Entries() == old(Entries()) +
                [IndexEntry(Wrap32(offset - baseOffset), Wrap32(position))]
      ensures mmap[8 * old(entryCount)..8 * old(entryCount) + 8] == PutBE(4, offset - baseOffset) + PutBE(4, position)
    {
      hide EntriesOf, PutBE, Wrap32;
      if 8 * (entryCount + 1) > size {
        Grow();
      }
      WriteEntry(offset - baseOffset, position);
    }

    method WriteEntry(relative: int, position: int)
      requires Valid() && 8 * (entryCount + 1) <= size
      modifies this`entryCount, mmap
      ensures Valid()
      ensures Entries() == old(Entries()) + [IndexEntry(Wrap32(relative), Wrap32(position))]
      ensures mmap[8 * old(entryCount)..8 * old(entryCount) + 8] == PutBE(4, relative) + PutBE(4, position)
    {
      hide EntryAt, PutBE, Wrap32;
      ghost var before := mmap[..];
      var at := 8 * entryCount;
      var entry := PutBE(4, relative) + PutBE(4, position);
      forall i | 0 <= i < 8 {
        mmap[at + i] := entry[i];
      }
      entryCount := entryCount + 1;
      ghost var after := mmap[..];
      assert after[..at] == before[..at];
      assert after[at..at + 8] == mmap[at..at + 8] == entry;
      EntriesAgree(before, after, entryCount - 1);
      EntryWritten(after, entryCount - 1, relative, position);
    }

    /** Doubles the mapping; the entries stay. */
    method Grow()
      requires Valid()
      modifies this
      ensures Valid() && fresh(mmap)
      ensures size == 2 * old(size) && entryCount == old(entryCount)
      ensures Entries() == old(Entries())
    {
      hide EntryAt, EntriesOf;
      ghost var before := mmap[..];
      var bigger := new Byte[2 * size];
      forall i | 0 <= i < size {
        bigger[i] := mmap[i];
      }
      mmap := bigger;
      size := 2 * size;
      ghost var after := mmap[..];
      assert after[..8 * entryCount] == before[..8 * entryCount];
      EntriesAgree(before, after, entryCount);
    }

    function RelativeAt(i: nat): (r: nat)
      requires Valid() && i < entryCount
      reads this, mmap
      ensures r == Entries()[i].relativeOffset
    {
      assert mmap[..][8 * i..8 * i + 4] == mmap[8 * i..8 * i + 4];
      GetBE(mmap[8 * i..8 * i + 4])
    }

    function PositionAt(i: nat): (p: nat)
      requires Valid() && i < entryCount
      reads this, mmap
      ensures p == Entries()[i].position
    {
      assert mmap[..][8 * i + 4..8 * i + 8] == mmap[8 * i + 4..8 * i + 8];
      GetBE(mmap[8 * i + 4..8 * i + 8])
    }

    method Lookup(offset: int) returns (position: int)
      requires Valid() && Sorted(Entries())
      ensures position == FloorPosition(Entries(), offset - baseOffset)
    {
      hide RelativeAt, PositionAt, EntriesOf, FloorCount, Sorted;
      if entryCount == 0 {
        return 0;
      }
      var relative := offset - baseOffset;
      ghost var es := Entries();
      var left, right := 0, entryCount - 1;
      var result := -1;
      while left <= right
        invariant 0 <= left <= right + 1 <= entryCount
        invariant result == left - 1
        invariant left > 0 ==> es[left - 1].relativeOffset < relative
        invariant right + 1 < entryCount ==> relative < es[right + 1].relativeOffset
      {
        var mid := left + (right - left) / 2;
        if RelativeAt(mid) == relative {
          FloorExact(es, mid);
          return PositionAt(mid);
        }
        if RelativeAt(mid) < relative {
          result := mid;
          left := mid + 1;
        } else {
          right := mid - 1;
        }
      }
      FloorUnique(es, relative, left);
      if result >= 0 {
        return PositionAt(result);
      }
      return 0;
    }
  }
}
