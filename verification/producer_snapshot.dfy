/**
 The producer snapshot file: one entry per producer, a header with magic,
 version and base offset, and a trailing checksum (a parameter here).
 */
module ProducerSnapshots {
  import opened Options
  import opened Bytes
  import opened Idempotence
  import opened ExactlyOnce

  const MAGIC := 0x4B41464B
  const VERSION := 1
  const ENTRY_HEADER_BYTES := 35
  const SLOT_BYTES := 20

  // ---- One entry ----

  /** The used slots, in array order. */
  function Used(ring: seq<Slot>): (u: seq<Slot>)
    ensures |u| <= |ring|
  {
    if ring == [] then []
    else
      var n := |ring| - 1;
      Used(ring[..n]) + if ring[n].firstSeq >= 0 then [ring[n]] else []
  }

  function SlotBytes(s: Slot): (b: seq<Byte>)
    ensures |b| == SLOT_BYTES
  {
    PutBE(4, s.firstSeq) + (PutBE(4, s.lastSeq) + (PutBE(8, s.baseOffset) + PutBE(4, s.leaderEpoch)))
  }

  function SlotsBytes(slots: seq<Slot>): (b: seq<Byte>)
    ensures |b| == SLOT_BYTES * |slots|
  {
    if slots == [] then [] else SlotsBytes(slots[..|slots| - 1]) + SlotBytes(slots[|slots| - 1])
  }

  function EntryHeader(e: SnapshotEntry, ringLen: int): (b: seq<Byte>)
    ensures |b| == ENTRY_HEADER_BYTES
  {
    PutBE(8, e.pid) + (PutBE(2, e.log.lastEpoch) + (PutBE(4, e.log.lastSeq) + (PutBE(8, e.log.lastOffset) +
      (PutBE(4, e.log.lastLeaderEpoch) + (PutBE(8, e.log.lastTimestamp) + PutBE(1, ringLen))))))
  }

  function EntryBytes(e: SnapshotEntry): seq<Byte> {
    EntryHeader(e, |Used(e.log.ring)|) + SlotsBytes(Used(e.log.ring))
  }

  function SlotAt(raw: seq<Byte>, off: nat): Slot
    requires off + SLOT_BYTES <= |raw|
  {
    Slot(I32At(raw, off), I32At(raw, off + 4), I64At(raw, off + 8), I32At(raw, off + 16))
  }

  function SlotsAt(raw: seq<Byte>, off: nat, n: nat): (slots: seq<Slot>)
    requires off + SLOT_BYTES * n <= |raw|
    ensures |slots| == n
  {
    if n == 0 then [] else SlotsAt(raw, off, n - 1) + [SlotAt(raw, off + SLOT_BYTES * (n - 1))]
  }

  /** A ring with the given slots first and the rest unused. */
  function RingOf(slots: seq<Slot>): (ring: seq<Slot>)
    requires |slots| <= RING_SIZE
    ensures |ring| == RING_SIZE
  {
    slots + seq(RING_SIZE - |slots|, _ => EMPTY_SLOT)
  }

  /** The entry at the start of `raw` and the number of bytes it takes. */
  function EntryAt(raw: seq<Byte>): Option<(SnapshotEntry, nat)> {
    if |raw| < ENTRY_HEADER_BYTES then None
    else
      var n := raw[34];
      if n > RING_SIZE || |raw| - ENTRY_HEADER_BYTES < n * SLOT_BYTES then None
      else
        var log := Producer(I32At(raw, 10), I64At(raw, 14), I16At(raw, 8), I32At(raw, 22), I64At(raw, 26),
                            RingOf(SlotsAt(raw, ENTRY_HEADER_BYTES, n)), n % RING_SIZE);
        Some((SnapshotEntry(I64At(raw, 0), log), ENTRY_HEADER_BYTES + n * SLOT_BYTES))
  }

  /** What a snapshot keeps of a producer: everything but the order in which the ring was filled. */
  function Normalized(p: Producer): Producer
    requires RingOk(p)
  {
    p.(ring := RingOf(Used(p.ring)), ringHead := |Used(p.ring)| % RING_SIZE)
  }

  function NormalizedEntry(e: SnapshotEntry): SnapshotEntry
    requires RingOk(e.log)
  {
    e.(log := Normalized(e.log))
  }

  // ---- Round trip of one entry ----

  predicate SlotInRange(s: Slot) {
    In32(s.firstSeq) && In32(s.lastSeq) && In64(s.baseOffset) && In32(s.leaderEpoch)
  }

  /** The fields fit their Go types. */
  predicate InRange(e: SnapshotEntry) {
    && In64(e.pid) && In32(e.log.lastSeq) && In64(e.log.lastOffset) && In16(e.log.lastEpoch)
    && In32(e.log.lastLeaderEpoch) && In64(e.log.lastTimestamp)
    && RingOk(e.log)
    && forall k | 0 <= k < |e.log.ring| :: SlotInRange(e.log.ring[k])
  }

  lemma SlotRoundTrip(raw: seq<Byte>, off: nat, s: Slot)
    requires At(raw, off, SlotBytes(s)) && SlotInRange(s)
    ensures SlotAt(raw, off) == s
  {
    hide PutBE, I32At, I64At, At;
    SplitSlot(raw, off, s);
    Read32(raw, off, s.firstSeq);
    Read32(raw, off + 4, s.lastSeq);
    Read64(raw, off + 8, s.baseOffset);
    Read32(raw, off + 16, s.leaderEpoch);
  }

  lemma SplitSlot(raw: seq<Byte>, off: nat, s: Slot)
    requires At(raw, off, SlotBytes(s))
    ensures At(raw, off, PutBE(4, s.firstSeq)) && At(raw, off + 4, PutBE(4, s.lastSeq))
    ensures At(raw, off + 8, PutBE(8, s.baseOffset)) && At(raw, off + 16, PutBE(4, s.leaderEpoch))
    ensures off + SLOT_BYTES <= |raw|
  {
    assert off + SLOT_BYTES <= |raw|;
    hide PutBE, At;
    var c := PutBE(8, s.baseOffset) + PutBE(4, s.leaderEpoch);
    var b := PutBE(4, s.lastSeq) + c;
    AtSplit(raw, off, PutBE(4, s.firstSeq), b);
    AtSplit(raw, off + 4, PutBE(4, s.lastSeq), c);
    AtSplit(raw, off + 8, PutBE(8, s.baseOffset), PutBE(4, s.leaderEpoch));
  }

  lemma {:induction false} SlotsRoundTrip(raw: seq<Byte>, off: nat, slots: seq<Slot>)
    requires At(raw, off, SlotsBytes(slots)) && forall k | 0 <= k < |slots| :: SlotInRange(slots[k])
    ensures SlotsAt(raw, off, |slots|) == slots
    decreases |slots|
  {
    hide At, SlotAt, SlotBytes, SlotInRange;
    if slots != [] {
      var n := |slots| - 1;
      AtSplit(raw, off, SlotsBytes(slots[..n]), SlotBytes(slots[n]));
      SlotsRoundTrip(raw, off, slots[..n]);
      SlotRoundTrip(raw, off + SLOT_BYTES * n, slots[n]);
    }
  }

  lemma HeaderRoundTrip(raw: seq<Byte>, e: SnapshotEntry, n: Byte)
    requires At(raw, 0, EntryHeader(e, n)) && InRange(e)
    ensures |raw| >= ENTRY_HEADER_BYTES
    ensures I64At(raw, 0) == e.pid && I16At(raw, 8) == e.log.lastEpoch && I32At(raw, 10) == e.log.lastSeq
    ensures I64At(raw, 14) == e.log.lastOffset && I32At(raw, 22) == e.log.lastLeaderEpoch
    ensures I64At(raw, 26) == e.log.lastTimestamp && raw[34] == n
  {
    assert |raw| >= ENTRY_HEADER_BYTES;
    hide PutBE, I16At, I32At, I64At, At, RingOk;
    var f := PutBE(8, e.log.lastTimestamp) + PutBE(1, n);
    var d := PutBE(4, e.log.lastLeaderEpoch) + f;
    var c := PutBE(8, e.log.lastOffset) + d;
    var b := PutBE(4, e.log.lastSeq) + c;
    var a := PutBE(2, e.log.lastEpoch) + b;
    AtSplit(raw, 0, PutBE(8, e.pid), a);
    Read64(raw, 0, e.pid);
    AtSplit(raw, 8, PutBE(2, e.log.lastEpoch), b);
    Read16(raw, 8, e.log.lastEpoch);
    AtSplit(raw, 10, PutBE(4, e.log.lastSeq), c);
    Read32(raw, 10, e.log.lastSeq);
    AtSplit(raw, 14, PutBE(8, e.log.lastOffset), d);
    Read64(raw, 14, e.log.lastOffset);
    AtSplit(raw, 22, PutBE(4, e.log.lastLeaderEpoch), f);
    Read32(raw, 22, e.log.lastLeaderEpoch);
    AtSplit(raw, 26, PutBE(8, e.log.lastTimestamp), PutBE(1, n));
    Read64(raw, 26, e.log.lastTimestamp);
    ReadByte(raw, 34, n);
  }

  lemma {:induction false} UsedInRange(ring: seq<Slot>)
    requires forall k | 0 <= k < |ring| :: SlotInRange(ring[k])
    ensures forall k | 0 <= k < |Used(ring)| :: SlotInRange(Used(ring)[k])
  {
    if ring != [] {
      UsedInRange(ring[..|ring| - 1]);
    }
  }

  lemma EntryParts(e: SnapshotEntry)
    requires InRange(e)
    ensures RingOk(e.log) && forall k | 0 <= k < |Used(e.log.ring)| :: SlotInRange(Used(e.log.ring)[k])
  {
    UsedInRange(e.log.ring);
  }

  /** Decoding an encoded entry, whatever follows it, gives the entry up to ring order, and its length. */
  lemma EntryRoundTrip(e: SnapshotEntry, rest: seq<Byte>)
    requires InRange(e)
    ensures RingOk(e.log)
    ensures EntryAt(EntryBytes(e) + rest) == Some((NormalizedEntry(e), |EntryBytes(e)|))
  {
    hide InRange, Used, I16At, I32At, I64At, SlotsAt, EntryHeader, SlotsBytes, At, SlotInRange, RingOf;
    EntryParts(e);
    var used := Used(e.log.ring);
    var raw := EntryBytes(e) + rest;
    AtStart(EntryBytes(e), rest);
    AtSplit(raw, 0, EntryHeader(e, |used|), SlotsBytes(used));
    HeaderRoundTrip(raw, e, |used|);
    SlotsRoundTrip(raw, ENTRY_HEADER_BYTES, used);
  }

  // ---- A restored producer answers every query alike ----

  /** What a lookup returns. */
  function Found(ring: seq<Slot>, firstSeq: int, lastSeq: int): Option<int> {
    var k := Lookup(ring, firstSeq, lastSeq);
    if k < |ring| then Some(ring[k].baseOffset) else None
  }

  lemma {:induction false} FoundAppend(a: seq<Slot>, b: seq<Slot>, firstSeq: int, lastSeq: int)
    ensures Found(a + b, firstSeq, lastSeq) ==
            if Found(a, firstSeq, lastSeq).Some? then Found(a, firstSeq, lastSeq) else Found(b, firstSeq, lastSeq)
  {
    var ka, kb, k := Lookup(a, firstSeq, lastSeq), Lookup(b, firstSeq, lastSeq), Lookup(a + b, firstSeq, lastSeq);
    hide Lookup;
    assert ka < |a| ==> (a + b)[ka] == a[ka];
    assert ka == |a| && kb < |b| ==> (a + b)[|a| + kb] == b[kb];
    assert k < |a| ==> (a + b)[k] == a[k];
    assert |a| <= k < |a + b| ==> (a + b)[k] == b[k - |a|];
  }

  lemma {:induction false} FoundAmongUsed(ring: seq<Slot>, firstSeq: int, lastSeq: int)
    ensures Found(Used(ring), firstSeq, lastSeq) == Found(ring, firstSeq, lastSeq)
  {
    if ring != [] {
      var n := |ring| - 1;
      FoundAmongUsed(ring[..n], firstSeq, lastSeq);
      var last := if ring[n].firstSeq >= 0 then [ring[n]] else [];
      FoundAppend(Used(ring[..n]), last, firstSeq, lastSeq);
      FoundAppend(ring[..n], [ring[n]], firstSeq, lastSeq);
      assert ring == ring[..n] + [ring[n]];
    }
  }

  /** Normalizing changes no verdict, on any query. */
  lemma SameVerdict(p: Producer, epoch: int, firstSeq: int, lastSeq: int)
    requires RingOk(p)
    ensures Judge(Normalized(p), epoch, firstSeq, lastSeq) == Judge(p, epoch, firstSeq, lastSeq)
  {
    var used := Used(p.ring);
    var unused := seq(RING_SIZE - |used|, _ => EMPTY_SLOT);
    FoundAmongUsed(p.ring, firstSeq, lastSeq);
    FoundAppend(used, unused, firstSeq, lastSeq);
    assert Found(unused, firstSeq, lastSeq).None?;
    assert Found(Normalized(p).ring, firstSeq, lastSeq) == Found(p.ring, firstSeq, lastSeq);
  }

  /** On reachable producers nothing at all is lost exactly while the ring's head stands where a decoder puts it. */
  lemma NormalizedExactly(p: Producer, chain: seq<Entry>)
    requires Tracks(p, chain) && forall k | 0 <= k < |chain| :: chain[k].firstSeq >= 0
    ensures Used(Normalized(p).ring) == Used(p.ring)
    ensures Normalized(p) == p <==> |chain| < RING_SIZE || |chain| % RING_SIZE == 0
  {
    var m := if |chain| < RING_SIZE then |chain| else RING_SIZE;
    forall j | 0 <= j < m ensures p.ring[j].firstSeq >= 0 {
      var k := |chain| - 1 - (|chain| - 1 - j) % RING_SIZE;
      SameResidue(|chain| - 1, j);
      assert p.ring[k % RING_SIZE] == SlotOf(chain[k]);
    }
    UsedPrefix(p.ring, m);
    UsedPrefix(RingOf(p.ring[..m]), m);
    assert RingOf(p.ring[..m]) == p.ring;
  }

  lemma {:induction false} UsedPrefix(ring: seq<Slot>, m: nat)
    requires m <= |ring| && (forall j | 0 <= j < |ring| :: ring[j].firstSeq >= 0 <==> j < m)
    ensures Used(ring) == ring[..m]
  {
    if |ring| > m {
      UsedPrefix(ring[..|ring| - 1], m);
      assert ring[..|ring| - 1][..m] == ring[..m];
    } else if m > 0 {
      UsedPrefix(ring[..m - 1], m - 1);
      assert ring[..m - 1][..m - 1] + [ring[m - 1]] == ring[..m];
    }
  }

  // ---- The file ----

  function EntriesBytes(entries: seq<SnapshotEntry>): seq<Byte> {
    if entries == [] then [] else EntriesBytes(entries[..|entries| - 1]) + EntryBytes(entries[|entries| - 1])
  }

  function Body(base: int, entries: seq<SnapshotEntry>): seq<Byte> {
    PutBE(4, MAGIC) + (PutBE(2, VERSION) + (PutBE(8, base) + (PutBE(4, |entries|) + EntriesBytes(entries))))
  }

  function FileBytes(base: int, entries: seq<SnapshotEntry>, crc: seq<Byte> -> UInt32): seq<Byte> {
    Body(base, entries) + PutBE(4, crc(Body(base, entries)))
  }

  const FILE_HEADER_BYTES := 18

  /** `n` entries read one after another from `off`. */
  function EntriesFrom(body: seq<Byte>, off: nat, n: nat): Option<seq<SnapshotEntry>>
    requires off <= |body|
    decreases n
  {
    if n == 0 then Some([])
    else
      match EntryAt(body[off..])
      case None => None
      case Some((e, size)) =>
        assert off + size <= |body|;
        match EntriesFrom(body, off + size, n - 1)
        case None => None
        case Some(es) => Some([e] + es)
  }

  function DecodedFile(raw: seq<Byte>, expectedBase: int, crc: seq<Byte> -> UInt32): Option<seq<SnapshotEntry>> {
    if |raw| < FILE_HEADER_BYTES + 4 then None
    else
      var body := raw[..|raw| - 4];
      if crc(body) != UnsignedAt(raw, |raw| - 4, 4) || UnsignedAt(body, 0, 4) != MAGIC ||
         UnsignedAt(body, 4, 2) != VERSION
         || I64At(body, 6) != expectedBase
      then None
      else EntriesFrom(body, FILE_HEADER_BYTES, UnsignedAt(body, 14, 4))
  }

  predicate AllInRange(entries: seq<SnapshotEntry>) {
    forall k | 0 <= k < |entries| :: InRange(entries[k])
  }

  function NormalizedAll(entries: seq<SnapshotEntry>): (r: seq<SnapshotEntry>)
    requires AllInRange(entries)
    ensures |r| == |entries|
  {
    seq(|entries|, k requires 0 <= k < |entries| => NormalizedEntry(entries[k]))
  }

  lemma {:induction false} EntriesSplit(e: SnapshotEntry, es: seq<SnapshotEntry>)
    ensures EntriesBytes([e] + es) == EntryBytes(e) + EntriesBytes(es)
  {
    hide EntryBytes;
    var all := [e] + es;
    if es == [] {
      assert all[..0] == [];
      assert EntriesBytes(all) == EntriesBytes([]) + EntryBytes(e);
    } else {
      var n := |es| - 1;
      EntriesSplit(e, es[..n]);
      assert all[..|all| - 1] == [e] + es[..n];
    }
  }

  lemma {:induction false} EntriesRoundTrip(body: seq<Byte>, off: nat, entries: seq<SnapshotEntry>)
    requires off <= |body| && body[off..] == EntriesBytes(entries)
    requires AllInRange(entries)
    ensures EntriesFrom(body, off, |entries|) == Some(NormalizedAll(entries))
    decreases |entries|
  {
    hide AllInRange, EntryAt, EntryBytes, EntriesBytes, NormalizedAll;
    if entries != [] {
      var e, es := entries[0], entries[1..];
      assert entries == [e] + es;
      NormalizedSplit(e, es);
      EntriesSplit(e, es);
      EntryRoundTrip(e, EntriesBytes(es));
      var size := |EntryBytes(e)|;
      assert body[off + size..] == body[off..][size..] == EntriesBytes(es);
      EntriesRoundTrip(body, off + size, es);
    } else {
      NoneNormalized();
    }
  }

  lemma NormalizedSplit(e: SnapshotEntry, es: seq<SnapshotEntry>)
    requires AllInRange([e] + es)
    ensures InRange(e) && AllInRange(es)
    ensures NormalizedAll([e] + es) == [NormalizedEntry(e)] + NormalizedAll(es)
  {
    hide InRange, Normalized;
    var all := [e] + es;
    assert InRange(all[0]);
    forall k | 0 <= k < |es| ensures InRange(es[k]) {
      assert es[k] == all[k + 1];
    }
    InRangeRing(e);
    assert NormalizedAll(all)[0] == NormalizedEntry(e);
    forall k | 0 <= k < |es| ensures NormalizedAll(all)[k + 1] == NormalizedAll(es)[k] {
      assert es[k] == all[k + 1];
    }
  }

  lemma InRangeRing(e: SnapshotEntry)
    requires InRange(e)
    ensures RingOk(e.log)
  {
  }

  lemma NoneNormalized()
    ensures AllInRange([]) && NormalizedAll([]) == []
  {
  }

  /** A snapshot file reads back as the producers that were written, up to ring order. */
  lemma FileRoundTrip(base: int, entries: seq<SnapshotEntry>, crc: seq<Byte> -> UInt32)
    requires In64(base) && |entries| < 0x1_0000_0000
    requires AllInRange(entries)
    ensures DecodedFile(FileBytes(base, entries, crc), base, crc) == Some(NormalizedAll(entries))
  {
    var body, raw := Body(base, entries), FileBytes(base, entries, crc);
    BodyFields(base, entries);
    hide Body, EntriesFrom, InRange, PutBE;
    assert raw[..|raw| - 4] == body;
    Widths();
    AtStart(body, PutBE(4, crc(body)));
    UnsignedRead(raw, |body|, 4, crc(body));
  }

  lemma BodyFields(base: int, entries: seq<SnapshotEntry>)
    requires In64(base) && |entries| < 0x1_0000_0000
    requires AllInRange(entries)
    ensures var body := Body(base, entries);
            && |body| >= FILE_HEADER_BYTES
            && UnsignedAt(body, 0, 4) == MAGIC && UnsignedAt(body, 4, 2) == VERSION && I64At(body, 6) == base
            && UnsignedAt(body, 14, 4) == |entries|
            && EntriesFrom(body, FILE_HEADER_BYTES, |entries|) == Some(NormalizedAll(entries))
  {
    hide EntriesFrom, InRange, PutBE, EntriesBytes, At, I64At, UnsignedAt;
    var body := Body(base, entries);
    var es := EntriesBytes(entries);
    var c := PutBE(4, |entries|) + es;
    var b := PutBE(8, base) + c;
    var a := PutBE(2, VERSION) + b;
    Widths();
    AtWhole(body);
    AtSplit(body, 0, PutBE(4, MAGIC), a);
    UnsignedRead(body, 0, 4, MAGIC);
    AtSplit(body, 4, PutBE(2, VERSION), b);
    UnsignedRead(body, 4, 2, VERSION);
    AtSplit(body, 6, PutBE(8, base), c);
    Read64(body, 6, base);
    AtSplit(body, 14, PutBE(4, |entries|), es);
    UnsignedRead(body, 14, 4, |entries|);
    assert body[FILE_HEADER_BYTES..] == es;
    EntriesRoundTrip(body, FILE_HEADER_BYTES, entries);
  }

  // ---- The whole state ----

  /** What a snapshot keeps of a partition's producers. */
  function NormalizedProducers(ps: Producers): (r: Producers)
    requires AllRingsOk(ps)
    ensures AllRingsOk(r) && r.Keys == ps.Keys
  {
    map pid | pid in ps :: Normalized(ps[pid])
  }

  lemma ListsNormalized(entries: seq<SnapshotEntry>, ps: Producers)
    requires Lists(entries, ps) && AllInRange(entries) && AllRingsOk(ps)
    ensures Lists(NormalizedAll(entries), NormalizedProducers(ps))
  {
    hide Normalized, InRange;
    var r := NormalizedAll(entries);
    forall pid | pid in ps ensures exists i | 0 <= i < |r| :: r[i].pid == pid {
      var i :| 0 <= i < |entries| && entries[i].pid == pid;
      assert r[i].pid == pid;
    }
  }

  /**
   Writing a snapshot of any reachable state, reading the file back and
   restoring it gives the producers up to ring order, and the same verdict on
   every query at every time.
   */
  lemma SnapshotPreservesVerdicts(base: int, entries: seq<SnapshotEntry>, ps: Producers, crc: seq<Byte> -> UInt32)
    requires In64(base) && |entries| < 0x1_0000_0000 && AllInRange(entries) && AllRingsOk(ps) && Lists(entries, ps)
    ensures DecodedFile(FileBytes(base, entries, crc), base, crc).Some?
    ensures var restored := Restored(DecodedFile(FileBytes(base, entries, crc), base, crc).value);
            && restored == NormalizedProducers(ps)
            && forall pid, epoch, firstSeq, lastSeq, now ::
                 VerdictOn(restored, pid, epoch, firstSeq, lastSeq, now) ==
                 VerdictOn(ps, pid, epoch, firstSeq, lastSeq, now)
  {
    hide DecodedFile, FileBytes, Lists, AllInRange, Normalized, Judge, Restored;
    FileRoundTrip(base, entries, crc);
    ListsNormalized(entries, ps);
    RestoreUndoesSnapshot(NormalizedAll(entries), NormalizedProducers(ps));
    var r := NormalizedProducers(ps);
    forall pid, epoch, firstSeq, lastSeq, now
      ensures VerdictOn(r, pid, epoch, firstSeq, lastSeq, now) == VerdictOn(ps, pid, epoch, firstSeq, lastSeq, now)
    {
      if pid in ps {
        SameVerdict(ps[pid], epoch, firstSeq, lastSeq);
        SameTimestamp(ps[pid]);
      }
    }
  }

  lemma SameTimestamp(p: Producer)
    requires RingOk(p)
    ensures Normalized(p).lastTimestamp == p.lastTimestamp
  {
  }

  // ---- The code ----

  method CountUsed(ring: seq<Slot>) returns (n: nat)
    ensures n == |Used(ring)|
  {
    n := 0;
    for i := 0 to |ring|
      invariant n == |Used(ring[..i])|
    {
      assert ring[..i + 1][..i] == ring[..i];
      if ring[i].firstSeq >= 0 {
        n := n + 1;
      }
    }
    assert ring[..|ring|] == ring;
  }

  /** Appends one entry: counts the used slots, then writes the header and those slots. */
  method EncodeEntry(buf: seq<Byte>, e: SnapshotEntry) returns (out: seq<Byte>)
    requires |e.log.ring| == RING_SIZE
    ensures out == buf + EntryBytes(e)
  {
    hide SlotBytes, PutBE, Used, SlotsBytes;
    var ring := e.log.ring;
    var used := CountUsed(ring);
    var ringLen: int := if used > 255 then 255 else used;
    var header := EntryHeader(e, ringLen);
    out := buf + header;
    NoSlots(ring);
    for i := 0 to |ring|
      invariant out == buf + header + SlotsBytes(Used(ring[..i]))
    {
      UsedStep(ring, i);
      if ring[i].firstSeq < 0 {
        continue;
      }
      out := out + SlotBytes(ring[i]);
    }
    assert ring[..|ring|] == ring;
  }

  lemma NoSlots(ring: seq<Slot>)
    ensures SlotsBytes(Used(ring[..0])) == []
  {
  }

  lemma UsedStep(ring: seq<Slot>, i: nat)
    requires i < |ring|
    ensures SlotsBytes(Used(ring[..i + 1])) ==
            SlotsBytes(Used(ring[..i])) + if ring[i].firstSeq >= 0 then SlotBytes(ring[i]) else []
  {
    hide SlotBytes;
    var before := Used(ring[..i]);
    assert ring[..i + 1][..i] == ring[..i];
    assert (before + [ring[i]])[..|before|] == before;
    assert before + [] == before && SlotsBytes(before) + [] == SlotsBytes(before);
  }

  /** An entry in bytes: 35 of scalars, the last the number of slots, then 20 for each slot. */
  predicate EntryFieldsAt(raw: seq<Byte>, e: SnapshotEntry) {
    && |raw| >= 35 && raw[34] <= 5 && |raw| >= 35 + 20 * raw[34] && |e.log.ring| == 5
    && I64At(raw, 0) == e.pid && I16At(raw, 8) == e.log.lastEpoch && I32At(raw, 10) == e.log.lastSeq
    && I64At(raw, 14) == e.log.lastOffset && I32At(raw, 22) == e.log.lastLeaderEpoch
    && I64At(raw, 26) == e.log.lastTimestamp && e.log.ringHead == raw[34] % 5
    && (forall k | 0 <= k < raw[34] ::
          var at := 35 + 20 * k;
          e.log.ring[k] == Slot(I32At(raw, at), I32At(raw, at + 4), I64At(raw, at + 8), I32At(raw, at + 16)))
    && (forall k | raw[34] <= k < 5 :: e.log.ring[k] == Slot(-1, 0, 0, 0))
  }

  lemma {:induction false} SlotsAtAre(raw: seq<Byte>, off: nat, n: nat, k: nat)
    requires off + SLOT_BYTES * n <= |raw| && k < n
    ensures SlotsAt(raw, off, n)[k] == SlotAt(raw, off + SLOT_BYTES * k)
  {
    hide SlotAt;
    if k < n - 1 {
      SlotsAtAre(raw, off, n - 1, k);
    }
  }

  lemma EntryAtFields(raw: seq<Byte>)
    ensures EntryAt(raw).Some? <==> |raw| >= 35 && raw[34] <= 5 && |raw| >= 35 + 20 * raw[34]
    ensures EntryAt(raw).Some? ==> EntryFieldsAt(raw, EntryAt(raw).value.0)
  {
    hide I16At, I32At, I64At, SlotsAt;
    if EntryAt(raw).Some? {
      forall k | 0 <= k < raw[34] ensures SlotsAt(raw, 35, raw[34])[k] == SlotAt(raw, 35 + 20 * k) {
        SlotsAtAre(raw, 35, raw[34], k);
      }
    }
  }

  method DecodeEntry(raw: seq<Byte>) returns (r: Option<(SnapshotEntry, nat)>)
    ensures r == EntryAt(raw)
    ensures r.Some? <==> |raw| >= 35 && raw[34] <= 5 && |raw| >= 35 + 20 * raw[34]
    ensures r.Some? ==> EntryFieldsAt(raw, r.value.0) && r.value.1 == 35 + 20 * raw[34]
  {
    EntryAtFields(raw);
    hide EntryFieldsAt;
    hide I16At, I32At, I64At;
    if |raw| < ENTRY_HEADER_BYTES {
      return None;
    }
    var off := 34;
    var ringLen := raw[off];
    off := off + 1;
    if ringLen > RING_SIZE || |raw| - off < ringLen * SLOT_BYTES {
      return None;
    }
    var ring := seq(RING_SIZE, _ => EMPTY_SLOT);
    for i := 0 to ringLen
      invariant off == ENTRY_HEADER_BYTES + SLOT_BYTES * i
      invariant ring == RingOf(SlotsAt(raw, ENTRY_HEADER_BYTES, i))
    {
      var slot := Slot(I32At(raw, off), I32At(raw, off + 4), I64At(raw, off + 8), I32At(raw, off + 16));
      ring := ring[i := slot];
      off := off + SLOT_BYTES;
    }
    var log := Producer(I32At(raw, 10), I64At(raw, 14), I16At(raw, 8), I32At(raw, 22), I64At(raw, 26),
                        ring, ringLen % RING_SIZE);
    return Some((SnapshotEntry(I64At(raw, 0), log), off));
  }

  method EncodeSnapshotFile(base: int, entries: seq<SnapshotEntry>, crc: seq<Byte> -> UInt32) returns (buf: seq<Byte>)
    requires forall k | 0 <= k < |entries| :: |entries[k].log.ring| == RING_SIZE
    ensures buf == FileBytes(base, entries, crc)
  {
    hide PutBE, EntryBytes;
    ghost var header := PutBE(4, MAGIC) + (PutBE(2, VERSION) + (PutBE(8, base) + PutBE(4, |entries|)));
    buf := PutBE(4, MAGIC) + (PutBE(2, VERSION) + (PutBE(8, base) + PutBE(4, |entries|)));
    for i := 0 to |entries|
      invariant buf == header + EntriesBytes(entries[..i])
    {
      assert entries[..i + 1][..i] == entries[..i];
      buf := EncodeEntry(buf, entries[i]);
    }
    assert entries[..|entries|] == entries;
    assert buf == Body(base, entries);
    buf := buf + PutBE(4, crc(buf));
  }

  lemma {:induction false} EntriesCount(body: seq<Byte>, off: nat, n: nat)
    requires off <= |body|
    ensures EntriesFrom(body, off, n).Some? ==> |EntriesFrom(body, off, n).value| == n
    decreases n
  {
    hide EntryAt;
    if n > 0 && EntryAt(body[off..]).Some? {
      EntryFits(body[off..]);
      EntriesCount(body, off + EntryAt(body[off..]).value.1, n - 1);
    }
  }

  predicate FileFieldsAt(raw: seq<Byte>, base: int, count: nat, crc: seq<Byte> -> UInt32) {
    && |raw| >= 22 && UnsignedAt(raw, |raw| - 4, 4) == crc(raw[..|raw| - 4])
    && UnsignedAt(raw, 0, 4) == 0x4B41464B && UnsignedAt(raw, 4, 2) == 1 && I64At(raw, 6) == base
    && UnsignedAt(raw, 14, 4) == count
  }

  /** A file is accepted only with its checksum, magic, version and base in place, and as many entries as it says. */
  lemma AcceptedFile(raw: seq<Byte>, expectedBase: int, crc: seq<Byte> -> UInt32)
    ensures DecodedFile(raw, expectedBase, crc).Some? ==>
              FileFieldsAt(raw, expectedBase, |DecodedFile(raw, expectedBase, crc).value|, crc)
  {
    hide EntriesFrom;
    if DecodedFile(raw, expectedBase, crc).Some? {
      var body := raw[..|raw| - 4];
      assert body[0..4] == raw[0..4] && body[4..6] == raw[4..6] && body[6..14] == raw[6..14];
      assert body[14..18] == raw[14..18];
      EntriesCount(body, 18, UnsignedAt(body, 14, 4));
    }
  }

  method DecodeSnapshotFile(raw: seq<Byte>, expectedBase: int, crc: seq<Byte> -> UInt32)
    returns (r: Option<seq<SnapshotEntry>>)
    ensures r == DecodedFile(raw, expectedBase, crc)
    ensures r.Some? ==> FileFieldsAt(raw, expectedBase, |r.value|, crc)
  {
    AcceptedFile(raw, expectedBase, crc);
    hide EntryAt, FileFieldsAt;
    if |raw| < FILE_HEADER_BYTES + 4 {
      return None;
    }
    var body := raw[..|raw| - 4];
    if crc(body) != UnsignedAt(raw, |raw| - 4, 4) || UnsignedAt(body, 0, 4) != MAGIC ||
       UnsignedAt(body, 4, 2) != VERSION || I64At(body, 6) != expectedBase {
      return None;
    }
    var count := UnsignedAt(body, 14, 4);
    var off: nat := FILE_HEADER_BYTES;
    var entries: seq<SnapshotEntry> := [];
    ghost var want := EntriesFrom(body, off, count);
    assert want.Some? ==> [] + want.value == want.value;
    for i := 0 to count
      invariant off <= |body|
      invariant want == After(entries, EntriesFrom(body, off, count - i))
    {
      AfterStep(entries, body, off, count - i);
      var e := DecodeEntry(body[off..]);
      if e.None? {
        return None;
      }
      entries := entries + [e.value.0];
      off := off + e.value.1;
    }
    assert entries + [] == entries;
    return Some(entries);
  }

  /** The entries already read, followed by what the rest of the file gives. */
  function After(front: seq<SnapshotEntry>, rest: Option<seq<SnapshotEntry>>): Option<seq<SnapshotEntry>> {
    match rest
    case None => None
    case Some(es) => Some(front + es)
  }

  lemma AfterStep(front: seq<SnapshotEntry>, body: seq<Byte>, off: nat, n: nat)
    requires off <= |body| && n > 0
    ensures match EntryAt(body[off..])
            case None => After(front, EntriesFrom(body, off, n)).None?
            case Some((e, size)) =>
              && off + size <= |body|
              && After(front, EntriesFrom(body, off, n)) == After(front + [e], EntriesFrom(body, off + size, n - 1))
  {
    hide EntryAt;
    EntryFits(body[off..]);
    match EntryAt(body[off..])
    case None =>
    case Some((e, size)) =>
      var rest := EntriesFrom(body, off + size, n - 1);
      assert rest.Some? ==> front + ([e] + rest.value) == front + [e] + rest.value;
  }

  lemma EntryFits(raw: seq<Byte>)
    ensures match EntryAt(raw) case None => true case Some((_, size)) => size <= |raw|
  {
  }

  /** Walks the sorted list of snapshot bases downwards to the latest one not above `maxBase` that decodes. */
  method LoadLatest(files: map<int, seq<Byte>>, bases: seq<int>, maxBase: int, crc: seq<Byte> -> UInt32)
    returns (base: int, entries: Option<seq<SnapshotEntry>>)
    requires forall i | 0 <= i < |bases| :: bases[i] in files
    requires forall i, j | 0 <= i < j < |bases| :: bases[i] < bases[j]
    ensures entries.Some? ==>
              && base in bases && base <= maxBase && DecodedFile(files[base], base, crc) == entries
              && forall b | b in bases && base < b <= maxBase :: DecodedFile(files[b], b, crc).None?
    ensures entries.None? ==> base == 0 && forall b | b in bases && b <= maxBase :: DecodedFile(files[b], b, crc).None?
  {
    hide DecodedFile;
    var i := |bases| - 1;
    while i >= 0
      invariant -1 <= i < |bases|
      invariant forall k | i < k < |bases| && bases[k] <= maxBase :: DecodedFile(files[bases[k]], bases[k], crc).None?
    {
      if bases[i] <= maxBase {
        var es := DecodeSnapshotFile(files[bases[i]], bases[i], crc);
        if es.Some? {
          return bases[i], es;
        }
      }
      i := i - 1;
    }
    return 0, None;
  }
}
