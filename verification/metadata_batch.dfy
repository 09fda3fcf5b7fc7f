/**
 Metadata records: each value travels as a record batch of its own, and a run
 of such batches is decoded back into the values.
 */
module MetadataBatches {
  import opened Options
  import opened Bytes
  import opened Varints
  import opened RecordBatch

  // ---- Encoding ----

  function RecordBody(value: seq<Byte>): seq<Byte> {
    [0] + (VarInt(0) + (VarInt(0) + (VarInt(-1) + (VarInt(|value|) + (value + VarInt(0))))))
  }

  function RecordBytes(value: seq<Byte>): seq<Byte> {
    VarInt(|RecordBody(value)|) + RecordBody(value)
  }

  /** What the checksum covers: attributes, last offset delta, two timestamps, no producer, one record. */
  function AfterCrc(value: seq<Byte>, now: int): (r: seq<Byte>)
    ensures |r| == 40 + |RecordBytes(value)|
  {
    PutBE(2, 0) + (PutBE(4, 0) + (PutBE(8, now) + (PutBE(8, now) + (PutBE(8, -1) + (PutBE(2, -1) + (PutBE(4, -1) +
      (PutBE(4, 1) + RecordBytes(value))))))))
  }

  function BatchBytes(value: seq<Byte>, now: int, crc: seq<Byte> -> UInt32): (r: seq<Byte>)
    ensures |r| == HEADER_SIZE + |RecordBytes(value)|
  {
    var after := AfterCrc(value, now);
    PutBE(8, 0) + (PutBE(4, 9 + |after|) + (PutBE(4, -1) + ([2] + (PutBE(4, crc(after)) + after))))
  }

  /** A whole batch of one record that carries this value. */
  predicate Carries(b: Batch, value: seq<Byte>) {
    Whole(b) && b.count == 1 && b.raw[HEADER_SIZE..] == RecordBytes(value)
  }

  lemma AfterCrcFields(s: seq<Byte>, pos: nat, value: seq<Byte>, now: int)
    requires At(s, pos, AfterCrc(value, now))
    ensures At(s, pos + 2, PutBE(4, 0)) && At(s, pos + 36, PutBE(4, 1)) && At(s, pos + 40, RecordBytes(value))
  {
    hide PutBE, At, RecordBytes;
    var h := PutBE(4, 1) + RecordBytes(value);
    var g := PutBE(4, -1) + h;
    var f := PutBE(2, -1) + g;
    var e := PutBE(8, -1) + f;
    var d := PutBE(8, now) + e;
    var c := PutBE(8, now) + d;
    var b := PutBE(4, 0) + c;
    AtSplit(s, pos, PutBE(2, 0), b);
    AtSplit(s, pos + 2, PutBE(4, 0), c);
    AtSplit(s, pos + 6, PutBE(8, now), d);
    AtSplit(s, pos + 14, PutBE(8, now), e);
    AtSplit(s, pos + 22, PutBE(8, -1), f);
    AtSplit(s, pos + 30, PutBE(2, -1), g);
    AtSplit(s, pos + 32, PutBE(4, -1), h);
    AtSplit(s, pos + 36, PutBE(4, 1), RecordBytes(value));
  }

  lemma BatchFields(value: seq<Byte>, now: int, crc: seq<Byte> -> UInt32)
    ensures var s := BatchBytes(value, now, crc);
            && At(s, 0, PutBE(8, 0)) && At(s, 8, PutBE(4, |s| - 12)) && At(s, 21, AfterCrc(value, now))
  {
    hide PutBE, At, AfterCrc;
    var s, after := BatchBytes(value, now, crc), AfterCrc(value, now);
    var d := PutBE(4, crc(after)) + after;
    var c := [2] + d;
    var b := PutBE(4, -1) + c;
    var a := PutBE(4, 9 + |after|) + b;
    AtWhole(s);
    AtSplit(s, 0, PutBE(8, 0), a);
    AtSplit(s, 8, PutBE(4, 9 + |after|), b);
    AtSplit(s, 12, PutBE(4, -1), c);
    AtSplit(s, 16, [2], d);
    AtSplit(s, 17, PutBE(4, crc(after)), after);
  }

  /** An encoded value is a whole batch at any offset the log patches in. */
  lemma EncodedCarries(value: seq<Byte>, now: int, crc: seq<Byte> -> UInt32, base: Int64)
    requires 0 <= base && 49 + |RecordBytes(value)| <= MAX_INT32
    ensures Carries(Rebase(Batch(0, 1, BatchBytes(value, now, crc)), base), value)
  {
    hide PutBE, At, AfterCrc, BatchBytes, RecordBytes, Whole, I32At, I64At;
    var s := BatchBytes(value, now, crc);
    BatchFields(value, now, crc);
    AfterCrcFields(s, 21, value, now);
    Read64(s, 0, 0);
    Read32(s, 8, |s| - 12);
    Read32(s, 23, 0);
    Read32(s, 57, 1);
    var b := Batch(0, 1, s);
    HeaderIsWhole(b);
    RebaseWhole(b, base);
    TailIs(s, HEADER_SIZE, RecordBytes(value));
    assert Rebase(b, base).raw[HEADER_SIZE..] == Rebase(b, base).raw[8..][53..] == s[8..][53..] == s[HEADER_SIZE..];
  }

  lemma HeaderIsWhole(b: Batch)
    requires 0 <= b.base && 1 <= b.count && |b.raw| >= HEADER_SIZE
    requires I64At(b.raw, 0) == b.base && I32At(b.raw, 8) == |b.raw| - 12
    requires I32At(b.raw, 23) == b.count - 1 && I32At(b.raw, 57) == b.count
    ensures Whole(b)
  {
  }

  lemma TailIs(s: seq<Byte>, pos: nat, x: seq<Byte>)
    requires At(s, pos, x) && |s| == pos + |x|
    ensures s[pos..] == x
  {
  }

  // ---- Decoding ----

  /** One read of the scanner: a value, an error, or an index out of range. */
  datatype Scan =
    | Got(value: int, pos: int)
    | Eof(pos: int)
    | Panic

  /** Unlike `ReadUVarInt` this reader lets the high bits of a tenth byte fall off. */
  function ZigFrom(data: seq<Byte>, pos: int, shift: nat, acc: nat): Scan
    decreases 64 - shift
  {
    if pos >= |data| then Eof(pos)
    else if pos < 0 then Panic
    else
      var acc' := (acc + data[pos] % 0x80 * Pow2(shift)) % TWO_TO_64;
      if data[pos] < 0x80 then Got(UnZigZag(acc'), pos + 1)
      else if shift + 7 >= 64 then Eof(pos + 1)
      else ZigFrom(data, pos + 1, shift + 7, acc')
  }

  function ZigAt(data: seq<Byte>, pos: int): Scan {
    ZigFrom(data, pos, 0, 0)
  }

  /** `n` numbers in a row; the result is the last one. */
  function ZigsAt(data: seq<Byte>, pos: int, n: nat): Scan
    requires n > 0
  {
    if n == 1 then ZigAt(data, pos)
    else
      match ZigsAt(data, pos, n - 1)
      case Got(_, p) => ZigAt(data, p)
      case other => other
  }

  /** A header's key or value: its length, read or taken as zero, is skipped. */
  function SkipSized(data: seq<Byte>, pos: int): Option<int> {
    match ZigAt(data, pos)
    case Got(n, p) => Some(p + n)
    case Eof(p) => Some(p)
    case Panic => None
  }

  function SkipHeaders(data: seq<Byte>, pos: int, n: int): Option<int>
    decreases if n < 0 then 0 else n
  {
    if n <= 0 then Some(pos)
    else
      var p :- SkipSized(data, pos);
      var q :- SkipSized(data, p);
      SkipHeaders(data, q, n - 1)
  }

  /** One record: its value, if it has one, and where the next begins; or the end of the batch; or a panic. */
  datatype RecordScan =
    | Record(values: seq<seq<Byte>>, pos: int)
    | Stopped(values: seq<seq<Byte>>)
    | Crashed

  /** From the value length on. */
  function ValueAt(data: seq<Byte>, pos: int): RecordScan {
    match ZigAt(data, pos)
    case Eof(_) => Stopped([])
    case Panic => Crashed
    case Got(n, p) =>
      var present := n > 0 && 0 <= p && p + n <= |data|;
      var values := if present then [data[p..p + n]] else [];
      match ZigAt(data, if present then p + n else p)
      case Eof(_) => Stopped(values)
      case Panic => Crashed
      case Got(headers, q) =>
        match SkipHeaders(data, q, headers)
        case None => Crashed
        case Some(r) => Record(values, r)
  }

  /** Length, attributes, timestamp delta, offset delta and key come first. */
  function RecordAt(data: seq<Byte>, pos: int): RecordScan {
    match ZigAt(data, pos)
    case Eof(_) => Stopped([])
    case Panic => Crashed
    case Got(_, p) =>
      if p >= |data| then Stopped([])
      else
        match ZigsAt(data, p + 1, 3)
        case Eof(_) => Stopped([])
        case Panic => Crashed
        case Got(keyLen, q) => ValueAt(data, if keyLen > 0 then q + keyLen else q)
  }

  function RecordsAt(data: seq<Byte>, pos: int, n: nat): Option<seq<seq<Byte>>>
    decreases n
  {
    if n == 0 then Some([])
    else
      match RecordAt(data, pos)
      case Crashed => None
      case Stopped(values) => Some(values)
      case Record(values, p) =>
        var rest :- RecordsAt(data, p, n - 1);
        Some(values + rest)
  }

  /** The values of all whole batches from `pos`; none when the code would panic. */
  function ValuesFrom(raw: seq<Byte>, pos: nat): Option<seq<seq<Byte>>>
    requires pos <= |raw|
    decreases |raw| - pos
  {
    if |raw| - pos < HEADER_SIZE then Some([])
    else
      var total := 12 + UnsignedAt(raw, pos + 8, 4);
      if pos + total > |raw| then Some([])
      else if total < HEADER_SIZE then None
      else
        var batch := raw[pos..pos + total];
        var values :- RecordsAt(batch[HEADER_SIZE..], 0, UnsignedAt(batch, 57, 4));
        var rest :- ValuesFrom(raw, pos + total);
        Some(values + rest)
  }

  // ---- Round trip ----

  lemma ZigStep(s: seq<Byte>, pos: nat, shift: nat, acc: nat, next: nat)
    requires pos < |s| && next == acc + s[pos] % 0x80 * Pow2(shift) < TWO_TO_64
    ensures ZigFrom(s, pos, shift, acc) ==
            if s[pos] < 0x80 then Got(UnZigZag(next), pos + 1)
            else if shift + 7 >= 64 then Eof(pos + 1)
            else ZigFrom(s, pos + 1, shift + 7, next)
  {
    hide Pow2, UnZigZag;
    ModUnique(next, TWO_TO_64, 0, next);
  }

  lemma {:induction false} ZigOn(s: seq<Byte>, pos: nat, shift: nat, acc: nat, v: nat)
    requires At(s, pos, UVarInt(v)) && shift % 7 == 0 && shift <= 63 && acc + v * Pow2(shift) < TWO_TO_64
    ensures ZigFrom(s, pos, shift, acc) == Got(UnZigZag(acc + v * Pow2(shift)), pos + |UVarInt(v)|)
    decreases v
  {
    hide Pow2, UnZigZag, ZigFrom;
    var p := Pow2(shift);
    assert s[pos] == UVarInt(v)[0];
    FitsAt63(v, shift);
    if v >= 0x80 {
      AtSplit(s, pos, [v % 0x80 + 0x80], UVarInt(v / 0x80));
      Pow2Seven(shift);
      Regroup(v, p);
      ZigStep(s, pos, shift, acc, acc + v % 0x80 * p);
      ZigOn(s, pos + 1, shift + 7, acc + v % 0x80 * p, v / 0x80);
    } else {
      ZigStep(s, pos, shift, acc, acc + v * p);
    }
  }

  lemma ZigReads(s: seq<Byte>, pos: nat, v: int, rest: seq<Byte>)
    requires At(s, pos, VarInt(v) + rest) && In64(v)
    ensures ZigAt(s, pos) == Got(v, pos + |VarInt(v)|) && At(s, pos + |VarInt(v)|, rest)
  {
    hide UVarInt, ZigFrom;
    AtSplit(s, pos, VarInt(v), rest);
    ZigZagRoundTrip(v);
    assert Pow2(0) == 1;
    ZigOn(s, pos, 0, 0, ZigZag(v));
  }

  /** A record read at the start of its bytes: its value, and the end. */
  lemma RecordRoundTrip(s: seq<Byte>, pos: nat, value: seq<Byte>)
    requires At(s, pos, RecordBytes(value)) && value != [] && |RecordBody(value)| <= MAX_INT64
    ensures RecordAt(s, pos) == Record([value], pos + |RecordBytes(value)|)
  {
    hide ZigAt, VarInt, At, ValueAt;
    var e := VarInt(|value|) + (value + VarInt(0));
    var d := VarInt(-1) + e;
    var c := VarInt(0) + d;
    var b := VarInt(0) + c;
    ZigReads(s, pos, |RecordBody(value)|, [0] + b);
    var p := pos + |VarInt(|RecordBody(value)|)|;
    ByteThen(s, p, b);
    ZigReads(s, p + 1, 0, c);
    var z := |VarInt(0)|;
    ZigReads(s, p + 1 + z, 0, d);
    ZigReads(s, p + 1 + z + z, -1, e);
    var q := p + 1 + z + z + |VarInt(-1)|;
    Three(s, p + 1, 0, 0, -1);
    ValueRoundTrip(s, q, value);
  }

  lemma ByteThen(s: seq<Byte>, pos: nat, rest: seq<Byte>)
    requires At(s, pos, [0] + rest)
    ensures pos < |s| && At(s, pos + 1, rest)
  {
    AtSplit(s, pos, [0], rest);
  }

  lemma Three(s: seq<Byte>, pos: nat, x: int, y: int, z: int)
    requires ZigAt(s, pos) == Got(x, pos + |VarInt(x)|)
    requires ZigAt(s, pos + |VarInt(x)|) == Got(y, pos + |VarInt(x)| + |VarInt(y)|)
    requires ZigAt(s, pos + |VarInt(x)| + |VarInt(y)|) == Got(z, pos + |VarInt(x)| + |VarInt(y)| + |VarInt(z)|)
    ensures ZigsAt(s, pos, 3) == Got(z, pos + |VarInt(x)| + |VarInt(y)| + |VarInt(z)|)
  {
    hide ZigAt, VarInt;
    assert ZigsAt(s, pos, 1) == ZigAt(s, pos);
    assert ZigsAt(s, pos, 2) == ZigAt(s, pos + |VarInt(x)|);
  }

  lemma ValueRoundTrip(s: seq<Byte>, pos: nat, value: seq<Byte>)
    requires At(s, pos, VarInt(|value|) + (value + VarInt(0))) && value != [] && |value| <= MAX_INT64
    ensures ValueAt(s, pos) == Record([value], pos + |VarInt(|value|)| + |value| + |VarInt(0)|)
  {
    hide ZigAt, VarInt, SkipHeaders;
    ZigReads(s, pos, |value|, value + VarInt(0));
    var p := pos + |VarInt(|value|)|;
    AtSplit(s, p, value, VarInt(0));
    assert VarInt(0) + [] == VarInt(0);
    ZigReads(s, p + |value|, 0, []);
    NoHeadersToSkip(s, p + |value| + |VarInt(0)|);
  }

  lemma NoHeadersToSkip(s: seq<Byte>, pos: int)
    ensures SkipHeaders(s, pos, 0) == Some(pos)
  {
  }

  lemma OneRecord(b: Batch, value: seq<Byte>)
    requires Carries(b, value) && value != []
    ensures RecordsAt(b.raw[HEADER_SIZE..], 0, 1) == Some([value])
  {
    hide RecordAt;
    var data := b.raw[HEADER_SIZE..];
    AtWhole(data);
    RecordRoundTrip(data, 0, value);
    assert [value] + [] == [value];
  }

  /** Decoding the concatenated batches of a list of non-empty values gives the list back. */
  lemma {:induction false} ValuesRoundTrip(bs: seq<Batch>, values: seq<seq<Byte>>, k: nat)
    requires |bs| == |values| && k <= |bs|
    requires forall i | 0 <= i < |bs| :: Carries(bs[i], values[i]) && values[i] != []
    ensures Pos(bs, k) <= |Flatten(bs)| && ValuesFrom(Flatten(bs), Pos(bs, k)) == Some(values[k..])
    decreases |bs| - k
  {
    hide ValuesFrom, Carries, Flatten, Whole, HeaderSays;
    forall i | 0 <= i < |bs| ensures Whole(bs[i]) {
      CarriesWhole(bs[i], values[i]);
    }
    var raw := Flatten(bs);
    FlattenLength(bs);
    PosMonotone(bs, k, |bs|);
    if k == |bs| {
      NothingLeft(raw);
    } else {
      HeaderAt(raw, bs, k);
      ValuesRoundTrip(bs, values, k + 1);
      BatchFirst(raw, Pos(bs, k), bs[k], values[k], values[k + 1..]);
      assert values[k..] == [values[k]] + values[k + 1..];
    }
  }

  lemma BatchFirst(raw: seq<Byte>, pos: nat, b: Batch, value: seq<Byte>, rest: seq<seq<Byte>>)
    requires pos + |b.raw| <= |raw| && raw[pos..pos + |b.raw|] == b.raw && Carries(b, value) && value != []
    requires HeaderSays(raw, pos, b.base, b.count, |b.raw|)
    requires ValuesFrom(raw, pos + |b.raw|) == Some(rest)
    ensures ValuesFrom(raw, pos) == Some([value] + rest)
  {
    hide RecordsAt, Carries, RecordBytes, HeaderSays, Whole;
    CarriesWhole(b, value);
    OneRecord(b, value);
    LengthIsUnsigned(raw, pos, b);
  }

  lemma CarriesWhole(b: Batch, value: seq<Byte>)
    requires Carries(b, value)
    ensures Whole(b) && b.count == 1 && |b.raw| >= HEADER_SIZE && UnsignedAt(b.raw, 57, 4) == 1
  {
    CountIsUnsigned(b);
  }

  lemma CountIsUnsigned(b: Batch)
    requires Whole(b)
    ensures UnsignedAt(b.raw, 57, 4) == b.count
  {
    hide UnsignedAt;
    Widths();
  }

  lemma LengthIsUnsigned(raw: seq<Byte>, pos: nat, b: Batch)
    requires HeaderSays(raw, pos, b.base, b.count, |b.raw|) && |b.raw| >= HEADER_SIZE
    ensures 12 + UnsignedAt(raw, pos + 8, 4) == |b.raw|
  {
    hide UnsignedAt;
    Widths();
  }

  lemma NothingLeft(raw: seq<Byte>)
    ensures ValuesFrom(raw, |raw|) == Some([])
  {
  }

  // ---- The code ----

  class ByteScanner {
    const data: seq<Byte>
    var pos: int

    constructor (data: seq<Byte>)
      ensures this.data == data && pos == 0
    {
      this.data := data;
      pos := 0;
    }

    method ReadZigzagVarInt() returns (r: Scan)
      modifies this
      ensures r == ZigAt(data, old(pos)) && (!r.Panic? ==> pos == r.pos)
    {
      hide Pow2, UnZigZag;
      var uv: nat, shift: nat := 0, 0;
      while true
        invariant shift < 64 && ZigFrom(data, pos, shift, uv) == ZigAt(data, old(pos))
        decreases 64 - shift
      {
        if pos >= |data| {
          return Eof(pos);
        }
        if pos < 0 {
          return Panic;
        }
        var b := data[pos];
        pos := pos + 1;
        uv := (uv + b % 0x80 * Pow2(shift)) % TWO_TO_64;
        if b < 0x80 {
          return Got(UnZigZag(uv), pos);
        }
        shift := shift + 7;
        if shift >= 64 {
          return Eof(pos);
        }
      }
    }

    /** Steps over the headers; false stands for an index out of range. */
    method SkipHeadersHere(n: int) returns (ok: bool)
      modifies this
      ensures match SkipHeaders(data, old(pos), n)
              case None => !ok
              case Some(p) => ok && pos == p
    {
      hide ZigAt;
      var h := 0;
      while h < n
        invariant SkipHeaders(data, pos, n - h) == SkipHeaders(data, old(pos), n)
        invariant 0 <= h && (0 <= n ==> h <= n)
      {
        var key := ReadZigzagVarInt();
        if key.Panic? {
          return false;
        }
        pos := pos + if key.Got? then key.value else 0;
        var value := ReadZigzagVarInt();
        if value.Panic? {
          return false;
        }
        pos := pos + if value.Got? then value.value else 0;
        h := h + 1;
      }
      return true;
    }

    method ReadValue() returns (r: RecordScan)
      modifies this
      ensures r == ValueAt(data, old(pos)) && (r.Record? ==> pos == r.pos)
    {
      hide ZigAt, SkipHeaders;
      var n := ReadZigzagVarInt();
      if !n.Got? {
        return if n.Eof? then Stopped([]) else Crashed;
      }
      var values: seq<seq<Byte>> := [];
      if n.value > 0 && 0 <= pos && pos + n.value <= |data| {
        values := [data[pos..pos + n.value]];
        pos := pos + n.value;
      }
      var headers := ReadZigzagVarInt();
      if !headers.Got? {
        return if headers.Eof? then Stopped(values) else Crashed;
      }
      var ok := SkipHeadersHere(headers.value);
      return if ok then Record(values, pos) else Crashed;
    }

    method ReadRecord() returns (r: RecordScan)
      modifies this
      ensures r == RecordAt(data, old(pos)) && (r.Record? ==> pos == r.pos)
    {
      hide ZigAt, ValueAt;
      var length := ReadZigzagVarInt();
      if !length.Got? {
        return if length.Eof? then Stopped([]) else Crashed;
      }
      if pos >= |data| {
        return Stopped([]);
      }
      pos := pos + 1;
      ghost var start := pos;
      var timestampDelta := ReadZigzagVarInt();
      if !timestampDelta.Got? {
        ZigsStay(data, start, 1);
        return if timestampDelta.Eof? then Stopped([]) else Crashed;
      }
      ZigsStep(data, start, 1);
      var offsetDelta := ReadZigzagVarInt();
      if !offsetDelta.Got? {
        ZigsStay(data, start, 2);
        return if offsetDelta.Eof? then Stopped([]) else Crashed;
      }
      ZigsStep(data, start, 2);
      var keyLen := ReadZigzagVarInt();
      if !keyLen.Got? {
        return if keyLen.Eof? then Stopped([]) else Crashed;
      }
      if keyLen.value > 0 {
        pos := pos + keyLen.value;
      }
      r := ReadValue();
    }
  }

  lemma ZigsStep(data: seq<Byte>, pos: int, i: nat)
    requires i > 0 && ZigsAt(data, pos, i).Got?
    ensures ZigsAt(data, pos, i + 1) == ZigAt(data, ZigsAt(data, pos, i).pos)
  {
  }

  lemma ZigsStay(data: seq<Byte>, pos: int, i: nat)
    requires 0 < i <= 3 && !ZigsAt(data, pos, i).Got?
    ensures ZigsAt(data, pos, 3) == ZigsAt(data, pos, i)
  {
    hide ZigAt;
    assert ZigsAt(data, pos, 3) == match ZigsAt(data, pos, 2) { case Got(_, p) => ZigAt(data, p) case other => other };
    assert ZigsAt(data, pos, 2) == match ZigsAt(data, pos, 1) { case Got(_, p) => ZigAt(data, p) case other => other };
  }

  /** What is already read, followed by the rest. */
  function Join(front: seq<seq<Byte>>, rest: Option<seq<seq<Byte>>>): Option<seq<seq<Byte>>> {
    match rest
    case None => None
    case Some(values) => Some(front + values)
  }

  lemma JoinMore(a: seq<seq<Byte>>, b: seq<seq<Byte>>, rest: Option<seq<seq<Byte>>>)
    ensures Join(a, Join(b, rest)) == Join(a + b, rest)
    ensures Join([], rest) == rest
  {
    if rest.Some? {
      assert a + (b + rest.value) == a + b + rest.value;
      assert [] + rest.value == rest.value;
    }
  }

  method DecodeBatch(data: seq<Byte>, numRecords: nat) returns (r: Option<seq<seq<Byte>>>)
    ensures r == RecordsAt(data, 0, numRecords)
  {
    hide RecordAt;
    var bs := new ByteScanner(data);
    var values: seq<seq<Byte>> := [];
    JoinMore([], [], RecordsAt(data, 0, numRecords));
    for i := 0 to numRecords
      invariant fresh(bs) && bs.data == data
      invariant RecordsAt(data, 0, numRecords) == Join(values, RecordsAt(data, bs.pos, numRecords - i))
    {
      ghost var was := bs.pos;
      var rec := bs.ReadRecord();
      if rec.Crashed? {
        return None;
      }
      if rec.Stopped? {
        return Some(values + rec.values);
      }
      JoinMore(values, rec.values, RecordsAt(data, bs.pos, numRecords - i - 1));
      assert RecordsAt(data, was, numRecords - i) == Join(rec.values, RecordsAt(data, bs.pos, numRecords - i - 1));
      values := values + rec.values;
    }
    assert values + [] == values;
    return Some(values);
  }

  method DecodeRecordValues(raw: seq<Byte>) returns (r: Option<seq<seq<Byte>>>)
    ensures r == ValuesFrom(raw, 0)
  {
    hide RecordsAt;
    var result: seq<seq<Byte>> := [];
    var pos: nat := 0;
    JoinMore([], [], ValuesFrom(raw, 0));
    while pos < |raw|
      invariant pos <= |raw| && ValuesFrom(raw, 0) == Join(result, ValuesFrom(raw, pos))
      decreases |raw| - pos
    {
      assert result + [] == result;
      if |raw| - pos < HEADER_SIZE {
        return Some(result);
      }
      var total := 12 + UnsignedAt(raw, pos + 8, 4);
      if pos + total > |raw| {
        return Some(result);
      }
      if total < HEADER_SIZE {
        return None;
      }
      var batch := raw[pos..pos + total];
      var values := DecodeBatch(batch[HEADER_SIZE..], UnsignedAt(batch, 57, 4));
      if values.None? {
        return None;
      }
      JoinMore(result, values.value, ValuesFrom(raw, pos + total));
      assert ValuesFrom(raw, pos) == Join(values.value, ValuesFrom(raw, pos + total));
      result := result + values.value;
      pos := pos + total;
    }
    assert result + [] == result;
    return Some(result);
  }
}
