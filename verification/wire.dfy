/**
 The protocol's `Writer` and `Reader`, proved against byte-string functions:
 what a write appends, and what a read finds at a position.
 */
module Wire {
  import opened Options
  import opened Bytes
  import opened Varints

  const INT64_MODULUS := TWO_TO_64

  // ---- What is written ----

  /** Length plus one, so that zero can stand for null. */
  function CompactLen(n: nat): seq<Byte> {
    UVarInt(n + 1)
  }

  function CompactBytes(b: Option<seq<Byte>>): seq<Byte> {
    match b
    case None => UVarInt(0)
    case Some(bytes) => CompactLen(|bytes|) + bytes
  }

  datatype Tag = Tag(key: nat, payload: seq<Byte>)

  function TagBytes(t: Tag): seq<Byte> {
    UVarInt(t.key) + (UVarInt(|t.payload|) + t.payload)
  }

  function TagsBytes(tags: seq<Tag>): seq<Byte> {
    UVarInt(|tags|) + Concat(tags, TagBytes)
  }

  function Concat<T>(xs: seq<T>, bytes: T -> seq<Byte>): seq<Byte> {
    if xs == [] then [] else Concat(xs[..|xs| - 1], bytes) + bytes(xs[|xs| - 1])
  }

  lemma {:induction false} ConcatAppend<T>(xs: seq<T>, ys: seq<T>, bytes: T -> seq<Byte>)
    ensures Concat(xs + ys, bytes) == Concat(xs, bytes) + Concat(ys, bytes)
  {
    if ys == [] {
      assert xs + ys == xs;
    } else {
      var n := |ys| - 1;
      ConcatAppend(xs, ys[..n], bytes);
      var a, b, c := Concat(xs, bytes), Concat(ys[..n], bytes), bytes(ys[n]);
      assert (xs + ys)[..|xs| + n] == xs + ys[..n];
      assert Concat(xs + ys, bytes) == a + b + c && Concat(ys, bytes) == b + c;
      hide Concat;
      assert a + b + c == a + (b + c);
    }
  }

  lemma ConcatOne<T>(x: T, bytes: T -> seq<Byte>)
    ensures Concat([], bytes) == [] && Concat([x], bytes) == bytes(x)
  {
    assert [x][..0] == [];
  }

  lemma ConcatNone<T>(xs: seq<T>, bytes: T -> seq<Byte>)
    ensures Concat(xs[..0], bytes) == []
  {
  }

  lemma ConcatStep<T>(xs: seq<T>, i: nat, bytes: T -> seq<Byte>)
    requires i < |xs|
    ensures Concat(xs[..i + 1], bytes) == Concat(xs[..i], bytes) + bytes(xs[i])
  {
    assert xs[..i + 1][..i] == xs[..i];
  }

  // ---- What is read: a value and the position after it ----

  function Int16At(s: seq<Byte>, pos: nat): Option<(int, nat)> {
    if pos + 2 > |s| then None else Some((I16At(s, pos) as int, pos + 2))
  }

  function Int32At(s: seq<Byte>, pos: nat): Option<(int, nat)> {
    if pos + 4 > |s| then None else Some((I32At(s, pos) as int, pos + 4))
  }

  function Int64At(s: seq<Byte>, pos: nat): Option<(int, nat)> {
    if pos + 8 > |s| then None else Some((I64At(s, pos) as int, pos + 8))
  }

  function RawAt(s: seq<Byte>, pos: nat, n: nat): Option<(seq<Byte>, nat)> {
    if pos + n > |s| then None else Some((s[pos..pos + n], pos + n))
  }

  /** Go's `int(u)`. */
  function ToInt(u: nat): int {
    if u > MAX_INT64 then u - INT64_MODULUS else u
  }

  /** A length, or -1 for null. */
  function CompactLenAt(s: seq<Byte>, pos: nat): Option<(int, nat)> {
    var (wl, p) :- UVarIntAt(s, pos);
    Some((if wl == 0 then -1 else ToInt(wl - 1), p))
  }

  function CompactRecordsAt(s: seq<Byte>, pos: nat): Option<(Option<seq<Byte>>, nat)> {
    var (wl, p) :- UVarIntAt(s, pos);
    if wl == 0 then Some((None, p))
    else
      var n := ToInt(wl) - 1;
      if n < 0 || p + n > |s| then None else Some((Some(s[p..p + n]), p + n))
  }

  /** Skips one tagged field. */
  function TagAt(s: seq<Byte>, pos: nat): Option<((), nat)> {
    var (_, p) :- UVarIntAt(s, pos);
    var (size, q) :- UVarIntAt(s, p);
    if ToInt(size) < 0 || q + size > |s| then None else Some(((), q + size))
  }

  /** `n` items one after another. */
  function ManyAt<T>(s: seq<Byte>, pos: nat, n: nat, item: (seq<Byte>, nat) -> Option<(T, nat)>)
    : Option<(seq<T>, nat)>
  {
    if n == 0 then Some(([], pos))
    else
      var (xs, p) :- ManyAt(s, pos, n - 1, item);
      var (x, q) :- item(s, p);
      Some((xs + [x], q))
  }

  function TagsAt(s: seq<Byte>, pos: nat): Option<((), nat)> {
    var (n, p) :- UVarIntAt(s, pos);
    var (_, q) :- ManyAt(s, p, n, TagAt);
    Some(((), q))
  }

  lemma {:induction false} ManyFails<T>(s: seq<Byte>, pos: nat, n: nat, m: nat,
                                        item: (seq<Byte>, nat) -> Option<(T, nat)>)
    requires n <= m && ManyAt(s, pos, n, item).None?
    ensures ManyAt(s, pos, m, item).None?
    decreases m
  {
    if n < m {
      ManyFails(s, pos, n, m - 1, item);
    }
  }

  // ---- Round trips ----

  /** Wherever `bytes` stands, `item` reads `x` from it and stops right behind it. */
  ghost predicate Reads<T(!new)>(item: (seq<Byte>, nat) -> Option<(T, nat)>, bytes: seq<Byte>, x: T) {
    forall s, pos: nat | At(s, pos, bytes) :: item(s, pos) == Some((x, pos + |bytes|))
  }

  lemma {:induction false} ManyReads<A, T(!new)>(s: seq<Byte>, pos: nat, xs: seq<A>, bytes: A -> seq<Byte>,
                                            item: (seq<Byte>, nat) -> Option<(T, nat)>, ys: seq<T>)
    requires At(s, pos, Concat(xs, bytes)) && |ys| == |xs|
    requires forall k | 0 <= k < |xs| :: Reads(item, bytes(xs[k]), ys[k])
    ensures ManyAt(s, pos, |xs|, item) == Some((ys, pos + |Concat(xs, bytes)|))
    decreases |xs|
  {
    hide At;
    if xs != [] {
      var n := |xs| - 1;
      AtSplit(s, pos, Concat(xs[..n], bytes), bytes(xs[n]));
      ManyReads(s, pos, xs[..n], bytes, item, ys[..n]);
      assert Reads(item, bytes(xs[n]), ys[n]);
      assert ys == ys[..n] + [ys[n]];
    }
  }

  lemma Int16Reads(v: int)
    requires In16(v)
    ensures Reads(Int16At, PutBE(2, v), v)
  {
    hide PutBE;
    forall s, pos: nat | At(s, pos, PutBE(2, v)) ensures Int16At(s, pos) == Some((v, pos + 2)) {
      Widths();
      SignedAt(s, pos, 2, v);
    }
  }

  lemma Int32Reads(v: int)
    requires In32(v)
    ensures Reads(Int32At, PutBE(4, v), v)
  {
    hide PutBE;
    forall s, pos: nat | At(s, pos, PutBE(4, v)) ensures Int32At(s, pos) == Some((v, pos + 4)) {
      Widths();
      SignedAt(s, pos, 4, v);
    }
  }

  lemma Int64Reads(v: int)
    requires In64(v)
    ensures Reads(Int64At, PutBE(8, v), v)
  {
    hide PutBE;
    forall s, pos: nat | At(s, pos, PutBE(8, v)) ensures Int64At(s, pos) == Some((v, pos + 8)) {
      Widths();
      SignedAt(s, pos, 8, v);
    }
  }

  lemma CompactLenReads(n: nat)
    requires n < MAX_INT64
    ensures Reads(CompactLenAt, CompactLen(n), n)
  {
    hide UVarInt, UVarIntAt;
    forall s, pos: nat | At(s, pos, CompactLen(n)) ensures CompactLenAt(s, pos) == Some((n, pos + |CompactLen(n)|)) {
      UVarIntRoundTrip(s, pos, n + 1);
    }
  }

  lemma CompactRecordsReads(b: Option<seq<Byte>>)
    requires b.Some? ==> |b.value| < MAX_INT64
    ensures Reads(CompactRecordsAt, CompactBytes(b), b)
  {
    hide UVarInt, UVarIntAt;
    forall s, pos: nat | At(s, pos, CompactBytes(b))
      ensures CompactRecordsAt(s, pos) == Some((b, pos + |CompactBytes(b)|))
    {
      if b.None? {
        UVarIntRoundTrip(s, pos, 0);
      } else {
        AtSplit(s, pos, CompactLen(|b.value|), b.value);
        UVarIntRoundTrip(s, pos, |b.value| + 1);
      }
    }
  }

  predicate TagOk(t: Tag) {
    t.key < TWO_TO_64 && |t.payload| <= MAX_INT64
  }

  lemma TagReads(t: Tag)
    requires TagOk(t)
    ensures Reads(TagAt, TagBytes(t), ())
  {
    hide UVarInt, UVarIntAt;
    forall s, pos: nat | At(s, pos, TagBytes(t)) ensures TagAt(s, pos) == Some(((), pos + |TagBytes(t)|)) {
      var rest := UVarInt(|t.payload|) + t.payload;
      AtSplit(s, pos, UVarInt(t.key), rest);
      UVarIntRoundTrip(s, pos, t.key);
      var p := pos + |UVarInt(t.key)|;
      AtSplit(s, p, UVarInt(|t.payload|), t.payload);
      UVarIntRoundTrip(s, p, |t.payload|);
    }
  }

  /** Tagged fields, whatever they hold, are skipped whole. */
  lemma TagsReads(tags: seq<Tag>)
    requires |tags| <= MAX_INT64 && forall k | 0 <= k < |tags| :: TagOk(tags[k])
    ensures Reads(TagsAt, TagsBytes(tags), ())
  {
    hide UVarInt, UVarIntAt, TagAt, TagBytes, TagOk, Concat;
    forall s, pos: nat | At(s, pos, TagsBytes(tags)) ensures TagsAt(s, pos) == Some(((), pos + |TagsBytes(tags)|)) {
      AtSplit(s, pos, UVarInt(|tags|), Concat(tags, TagBytes));
      UVarIntRoundTrip(s, pos, |tags|);
      forall k | 0 <= k < |tags| ensures Reads(TagAt, TagBytes(tags[k]), ()) {
        TagReads(tags[k]);
      }
      ManyReads(s, pos + |UVarInt(|tags|)|, tags, TagBytes, TagAt, seq(|tags|, _ => ()));
    }
  }

  // ---- What stands on the wire ----

  /** A null is one zero byte; other bytes follow a varint of their number plus one. */
  lemma CompactLayout(b: Option<seq<Byte>>)
    ensures b.None? ==> CompactBytes(b) == [0]
    ensures b.Some? && |b.value| < 127 ==> CompactBytes(b) == [|b.value| + 1] + b.value
    ensures b.Some? && |b.value| < MAX_INT64 ==>
              exists p: nat ::
                UVarIntAt(CompactBytes(b), 0) == Some((|b.value| + 1, p)) && CompactBytes(b)[p..] == b.value
  {
    if b.Some? && |b.value| < MAX_INT64 {
      hide UVarInt, UVarIntAt;
      var len := UVarInt(|b.value| + 1);
      AtStart(len, b.value);
      UVarIntRoundTrip(CompactBytes(b), 0, |b.value| + 1);
      assert CompactBytes(b)[|len|..] == b.value;
    }
  }

  lemma NoTags()
    ensures TagsBytes([]) == [0]
  {
    ConcatOne(Tag(0, []), TagBytes);
  }

  // ---- The writer ----

  class Writer {
    var buff: seq<Byte>

    constructor ()
      ensures buff == []
    {
      buff := [];
    }

    method Reset()
      modifies this
      ensures buff == []
    {
      buff := [];
    }

    method WriteInt16(value: int)
      modifies this
      ensures buff == old(buff) + PutBE(2, value)
    {
      buff := buff + PutBE(2, value);
    }

    method WriteInt32(value: int)
      modifies this
      ensures buff == old(buff) + PutBE(4, value)
    {
      buff := buff + PutBE(4, value);
    }

    method WriteInt64(value: int)
      modifies this
      ensures buff == old(buff) + PutBE(8, value)
    {
      buff := buff + PutBE(8, value);
    }

    method WriteUVarInt(value: nat)
      modifies this
      ensures buff == old(buff) + UVarInt(value)
    {
      var v := value;
      while v >= 0x80
        invariant buff + UVarInt(v) == old(buff) + UVarInt(value)
      {
        assert UVarInt(v) == [v % 0x80 + 0x80] + UVarInt(v / 0x80);
        buff := buff + [v % 0x80 + 0x80];
        v := v / 0x80;
      }
      buff := buff + [v];
    }

    method WriteVarInt(value: int)
      modifies this
      ensures buff == old(buff) + VarInt(value)
    {
      WriteUVarInt(ZigZag(value));
    }

    method WriteRaw(b: seq<Byte>)
      modifies this
      ensures buff == old(buff) + b
    {
      buff := buff + b;
    }

    method WriteCompactArrayLen(n: nat)
      modifies this
      ensures buff == old(buff) + CompactLen(n)
    {
      WriteUVarInt(n + 1);
    }

    method WriteCompactBytes(b: Option<seq<Byte>>)
      modifies this
      ensures buff == old(buff) + CompactBytes(b)
    {
      if b.None? {
        WriteUVarInt(0);
        return;
      }
      WriteUVarInt(|b.value| + 1);
      buff := buff + b.value;
    }

    method WriteEmptyTaggedFields()
      modifies this
      ensures buff == old(buff) + TagsBytes([])
    {
      buff := buff + [0];
    }

    /** One tagged field: its key, the size of its payload and the payload. */
    method WriteTag(t: Tag)
      modifies this
      ensures buff == old(buff) + TagBytes(t)
    {
      WriteUVarInt(t.key);
      WriteUVarInt(|t.payload|);
      WriteRaw(t.payload);
    }
  }

  // ---- The reader ----

  /** A read either fails like its function, or returns its value and moves to its position. */
  predicate Follows<T(==)>(got: Option<T>, pos: nat, spec: Option<(T, nat)>) {
    match spec
    case None => got.None?
    case Some((x, p)) => got == Some(x) && pos == p
  }

  class Reader {
    const buff: seq<Byte>
    var pos: nat

    constructor (buff: seq<Byte>)
      ensures this.buff == buff && pos == 0
    {
      this.buff := buff;
      pos := 0;
    }

    method ReadInt16() returns (v: Option<int>)
      modifies this
      ensures Follows(v, pos, Int16At(buff, old(pos)))
    {
      if pos + 2 > |buff| {
        return None;
      }
      v := Some(I16At(buff, pos));
      pos := pos + 2;
    }

    method ReadInt32() returns (v: Option<int>)
      modifies this
      ensures Follows(v, pos, Int32At(buff, old(pos)))
    {
      if pos + 4 > |buff| {
        return None;
      }
      v := Some(I32At(buff, pos));
      pos := pos + 4;
    }

    method ReadInt64() returns (v: Option<int>)
      modifies this
      ensures Follows(v, pos, Int64At(buff, old(pos)))
    {
      if pos + 8 > |buff| {
        return None;
      }
      v := Some(I64At(buff, pos));
      pos := pos + 8;
    }

    method ReadUVarInt() returns (v: Option<nat>)
      modifies this
      ensures Follows(v, pos, UVarIntAt(buff, old(pos)))
    {
      hide Pow2, UVarIntFrom;
      var result: nat, shift: nat := 0, 0;
      while true
        invariant shift < 64
        invariant UVarIntFrom(buff, pos, shift, result) == UVarIntAt(buff, old(pos))
        decreases 64 - shift
      {
        UVarIntStep(buff, pos, shift, result);
        if pos + 1 > |buff| {
          return None;
        }
        var b := buff[pos];
        pos := pos + 1;
        if shift == 63 && b > 1 {
          return None;
        }
        result := result + b % 0x80 * Pow2(shift);
        if b < 0x80 {
          return Some(result);
        }
        shift := shift + 7;
        if shift >= 64 {
          return None;
        }
      }
    }

    method ReadVarInt() returns (v: Option<int>)
      modifies this
      ensures Follows(v, pos, VarIntAt(buff, old(pos)))
    {
      hide UVarIntAt;
      var uv :- ReadUVarInt();
      return Some(UnZigZag(uv));
    }

    method ReadRaw(n: nat) returns (v: Option<seq<Byte>>)
      modifies this
      ensures Follows(v, pos, RawAt(buff, old(pos), n))
    {
      if pos + n > |buff| {
        return None;
      }
      v := Some(buff[pos..pos + n]);
      pos := pos + n;
    }

    method ReadCompactArrayLen() returns (v: Option<int>)
      modifies this
      ensures Follows(v, pos, CompactLenAt(buff, old(pos)))
    {
      hide UVarIntAt;
      var wl :- ReadUVarInt();
      if wl == 0 {
        return Some(-1);
      }
      return Some(ToInt(wl - 1));
    }

    method ReadCompactRecords() returns (v: Option<Option<seq<Byte>>>)
      modifies this
      ensures Follows(v, pos, CompactRecordsAt(buff, old(pos)))
    {
      hide UVarIntAt;
      var wl :- ReadUVarInt();
      if wl == 0 {
        return Some(None);
      }
      var n := ToInt(wl) - 1;
      if n < 0 || pos + n > |buff| {
        return None;
      }
      v := Some(Some(buff[pos..pos + n]));
      pos := pos + n;
    }

    method ReadTaggedFields() returns (v: Option<()>)
      modifies this
      ensures Follows(v, pos, TagsAt(buff, old(pos)))
    {
      hide UVarIntAt, TagAt;
      var count :- ReadUVarInt();
      ghost var start := pos;
      ghost var skipped: seq<()> := [];
      var i := 0;
      while i < count
        invariant i <= count && ManyAt(buff, start, i, TagAt) == Some((skipped, pos))
      {
        var one := ReadTag();
        if one.None? {
          ManyFails(buff, start, i + 1, count, TagAt);
          return None;
        }
        skipped := skipped + [one.value];
        i := i + 1;
      }
      return Some(());
    }

    method ReadTag() returns (v: Option<()>)
      modifies this
      ensures Follows(v, pos, TagAt(buff, old(pos)))
    {
      hide UVarIntAt;
      var _ :- ReadUVarInt();
      var size :- ReadUVarInt();
      if ToInt(size) < 0 || pos + size > |buff| {
        return None;
      }
      pos := pos + size;
      return Some(());
    }
  }
}
