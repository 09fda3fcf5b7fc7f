/**
 Where every field stands on the wire and on disk, by position: what other
 programs, and later versions, rely on beyond a round trip.
 */
module Layouts {
  import opened Bytes
  import opened Varints
  import opened Idempotence
  import opened ProducerSnapshots
  import MetadataBatches
  import MetadataLogs

  // ---- The snapshot file ----

  /** An entry: 35 bytes of scalars, then 20 for each used slot. */
  lemma EntryLayout(e: SnapshotEntry, k: nat)
    requires InRange(e)
    ensures var s, u := EntryBytes(e), Used(e.log.ring);
            && |s| == 35 + 20 * |u|
            && I64At(s, 0) == e.pid && I16At(s, 8) == e.log.lastEpoch && I32At(s, 10) == e.log.lastSeq
            && I64At(s, 14) == e.log.lastOffset && I32At(s, 22) == e.log.lastLeaderEpoch
            && I64At(s, 26) == e.log.lastTimestamp && s[34] == |u|
            && (k < |u| ==>
                  var off := 35 + 20 * k;
                  && I32At(s, off) == u[k].firstSeq && I32At(s, off + 4) == u[k].lastSeq
                  && I64At(s, off + 8) == u[k].baseOffset && I32At(s, off + 16) == u[k].leaderEpoch)
  {
    hide PutBE, I16At, I32At, I64At, Used, SlotsBytes, SlotInRange;
    var s, u := EntryBytes(e), Used(e.log.ring);
    AtStart(EntryHeader(e, |u|), SlotsBytes(u));
    HeaderLayout(s, e, |u|);
    if k < |u| {
      SlotPlaces(u, k);
      AtInside(s, 35, SlotsBytes(u), 20 * k, SlotBytes(u[k]));
      UsedInRange(e.log.ring, k);
      SlotLayout(s, 35 + 20 * k, u[k]);
    }
  }

  lemma HeaderLayout(s: seq<Byte>, e: SnapshotEntry, n: nat)
    requires InRange(e) && n <= RING_SIZE && At(s, 0, EntryHeader(e, n))
    ensures |s| >= 35
    ensures I64At(s, 0) == e.pid && I16At(s, 8) == e.log.lastEpoch && I32At(s, 10) == e.log.lastSeq
    ensures I64At(s, 14) == e.log.lastOffset && I32At(s, 22) == e.log.lastLeaderEpoch
    ensures I64At(s, 26) == e.log.lastTimestamp && s[34] == n
  {
    AtFits(s, 0, EntryHeader(e, n));
    hide PutBE, I16At, I32At, I64At, At;
    var f := PutBE(8, e.log.lastTimestamp) + PutBE(1, n);
    var d := PutBE(4, e.log.lastLeaderEpoch) + f;
    var c := PutBE(8, e.log.lastOffset) + d;
    var b := PutBE(4, e.log.lastSeq) + c;
    AtSplit(s, 0, PutBE(8, e.pid), PutBE(2, e.log.lastEpoch) + b);
    AtSplit(s, 8, PutBE(2, e.log.lastEpoch), b);
    AtSplit(s, 10, PutBE(4, e.log.lastSeq), c);
    AtSplit(s, 14, PutBE(8, e.log.lastOffset), d);
    AtSplit(s, 22, PutBE(4, e.log.lastLeaderEpoch), f);
    AtSplit(s, 26, PutBE(8, e.log.lastTimestamp), PutBE(1, n));
    Read64(s, 0, e.pid);
    Read16(s, 8, e.log.lastEpoch);
    Read32(s, 10, e.log.lastSeq);
    Read64(s, 14, e.log.lastOffset);
    Read32(s, 22, e.log.lastLeaderEpoch);
    Read64(s, 26, e.log.lastTimestamp);
    ReadByte(s, 34, n);
  }

  lemma SlotLayout(s: seq<Byte>, pos: nat, slot: Slot)
    requires At(s, pos, SlotBytes(slot)) && SlotInRange(slot)
    ensures pos + 20 <= |s|
    ensures I32At(s, pos) == slot.firstSeq && I32At(s, pos + 4) == slot.lastSeq
    ensures I64At(s, pos + 8) == slot.baseOffset && I32At(s, pos + 16) == slot.leaderEpoch
  {
    hide PutBE, I32At, I64At, At;
    SplitSlot(s, pos, slot);
    Read32(s, pos, slot.firstSeq);
    Read32(s, pos + 4, slot.lastSeq);
    Read64(s, pos + 8, slot.baseOffset);
    Read32(s, pos + 16, slot.leaderEpoch);
  }

  lemma {:induction false} SlotPlaces(slots: seq<Slot>, k: nat)
    requires k < |slots|
    ensures At(SlotsBytes(slots), 20 * k, SlotBytes(slots[k]))
  {
    hide SlotBytes;
    var n := |slots| - 1;
    var front := SlotsBytes(slots[..n]);
    AtStart(front, SlotBytes(slots[n]));
    if k < n {
      SlotPlaces(slots[..n], k);
      AtInside(SlotsBytes(slots), 0, front, 20 * k, SlotBytes(slots[k]));
    }
  }

  lemma {:induction false} UsedInRange(ring: seq<Slot>, k: nat)
    requires (forall i | 0 <= i < |ring| :: SlotInRange(ring[i])) && k < |Used(ring)|
    ensures SlotInRange(Used(ring)[k])
  {
    hide SlotInRange;
    var n := |ring| - 1;
    if k < |Used(ring[..n])| {
      UsedInRange(ring[..n], k);
    }
  }

  /** The file: magic, version, base offset, number of entries, the entries, and the checksum of all before it. */
  lemma FileLayout(base: int, entries: seq<SnapshotEntry>, crc: seq<Byte> -> UInt32)
    requires In64(base) && |entries| < 0x1_0000_0000
    ensures var s := FileBytes(base, entries, crc);
            FileFieldsAt(s, base, |entries|, crc) && s[18..|s| - 4] == EntriesBytes(entries)
  {
    Widths();
    hide PutBE, I64At, UnsignedAt, EntriesBytes;
    var s, body := FileBytes(base, entries, crc), Body(base, entries);
    assert s[..|s| - 4] == body;
    AtStart(body, PutBE(4, crc(body)));
    UnsignedRead(s, |body|, 4, crc(body));
    var d := PutBE(4, |entries|) + EntriesBytes(entries);
    var c := PutBE(8, base) + d;
    AtSplit(s, 0, PutBE(4, MAGIC), PutBE(2, VERSION) + c);
    AtSplit(s, 4, PutBE(2, VERSION), c);
    AtSplit(s, 6, PutBE(8, base), d);
    AtSplit(s, 14, PutBE(4, |entries|), EntriesBytes(entries));
    UnsignedRead(s, 0, 4, MAGIC);
    UnsignedRead(s, 4, 2, VERSION);
    Read64(s, 6, base);
    UnsignedRead(s, 14, 4, |entries|);
  }

  // ---- Metadata ----

  /** A lease record: kind 3, version 0, broker, its epoch, the end of the lease. */
  lemma LeaseLayout(brokerId: int, brokerEpoch: int, end: int)
    requires In32(brokerId) && In64(brokerEpoch) && In64(end)
    ensures var s := MetadataLogs.LeaseRecord(brokerId, brokerEpoch, end);
            && |s| == 22 && s[0] == 3 && s[1] == 0
            && I32At(s, 2) == brokerId && I64At(s, 6) == brokerEpoch && I64At(s, 14) == end
  {
    hide PutBE, I32At, I64At;
    var s := MetadataLogs.LeaseRecord(brokerId, brokerEpoch, end);
    var c := PutBE(8, brokerEpoch) + PutBE(8, end);
    AtStart([MetadataLogs.RECORD_TYPE_PRODUCER_IDS, 0], PutBE(4, brokerId) + c);
    AtSplit(s, 2, PutBE(4, brokerId), c);
    AtSplit(s, 6, PutBE(8, brokerEpoch), PutBE(8, end));
    Read32(s, 2, brokerId);
    Read64(s, 6, brokerEpoch);
    Read64(s, 14, end);
  }

  /** The record of a value: its length, four fixed bytes, the value's length, the value, a zero. */
  lemma RecordLayout(value: seq<Byte>)
    ensures MetadataBatches.RecordBytes(value) ==
            VarInt(5 + |VarInt(|value|)| + |value|) + [0, 0, 0, 1] + VarInt(|value|) + value + [0]
    ensures |value| < 58 ==>
              MetadataBatches.RecordBytes(value) == [2 * (|value| + 6), 0, 0, 0, 1, 2 * |value|] + value + [0]
  {
    SmallVarInt(0);
    SmallVarInt(-1);
    if |value| < 58 {
      SmallVarInt(|value|);
      SmallVarInt(|value| + 6);
    }
    hide VarInt;
    assert MetadataBatches.RecordBody(value) == [0, 0, 0, 1] + VarInt(|value|) + value + [0];
  }

  /**
   The batch around it: length from byte 12 on, magic 2, the checksum of all
   after it, no attributes, both timestamps, no producer, one record.
   */
  lemma MetadataBatchLayout(value: seq<Byte>, now: int, crc: seq<Byte> -> UInt32)
    requires In64(now) && 49 + |MetadataBatches.RecordBytes(value)| <= MAX_INT32
    ensures var s := MetadataBatches.BatchBytes(value, now, crc);
            && |s| >= 61
            && I64At(s, 0) == 0 && I32At(s, 8) == |s| - 12 && I32At(s, 12) == -1 && s[16] == 2
            && UnsignedAt(s, 17, 4) == crc(s[21..])
            && I16At(s, 21) == 0 && I32At(s, 23) == 0 && I64At(s, 27) == now && I64At(s, 35) == now
            && I64At(s, 43) == -1 && I16At(s, 51) == -1 && I32At(s, 53) == -1 && I32At(s, 57) == 1
            && s[61..] == MetadataBatches.RecordBytes(value)
  {
    Widths();
    hide PutBE, I16At, I32At, I64At, UnsignedAt, MetadataBatches.RecordBytes, MetadataBatches.AfterCrc;
    var s, after := MetadataBatches.BatchBytes(value, now, crc), MetadataBatches.AfterCrc(value, now);
    var d := PutBE(4, crc(after)) + after;
    var c := [2] + d;
    var b := PutBE(4, -1) + c;
    AtStart(PutBE(8, 0), PutBE(4, 9 + |after|) + b);
    AtSplit(s, 8, PutBE(4, 9 + |after|), b);
    AtSplit(s, 12, PutBE(4, -1), c);
    AtSplit(s, 16, [2], d);
    AtSplit(s, 17, PutBE(4, crc(after)), after);
    Read64(s, 0, 0);
    Read32(s, 8, 9 + |after|);
    Read32(s, 12, -1);
    assert s[16..17][0] == 2;
    UnsignedRead(s, 17, 4, crc(after));
    assert s[21..] == after;
    AfterCrcLayout(s, value, now);
  }

  lemma AfterCrcLayout(s: seq<Byte>, value: seq<Byte>, now: int)
    requires At(s, 21, MetadataBatches.AfterCrc(value, now)) && |s| == 21 + |MetadataBatches.AfterCrc(value, now)|
    requires In64(now)
    ensures |s| >= 61
    ensures I16At(s, 21) == 0 && I32At(s, 23) == 0 && I64At(s, 27) == now && I64At(s, 35) == now
    ensures I64At(s, 43) == -1 && I16At(s, 51) == -1 && I32At(s, 53) == -1 && I32At(s, 57) == 1
    ensures s[61..] == MetadataBatches.RecordBytes(value)
  {
    hide PutBE, I16At, I32At, I64At, MetadataBatches.RecordBytes;
    var h := PutBE(4, 1) + MetadataBatches.RecordBytes(value);
    var g := PutBE(4, -1) + h;
    var f := PutBE(2, -1) + g;
    var e := PutBE(8, -1) + f;
    var d := PutBE(8, now) + e;
    var c := PutBE(8, now) + d;
    AtSplit(s, 21, PutBE(2, 0), PutBE(4, 0) + c);
    AtSplit(s, 23, PutBE(4, 0), c);
    AtSplit(s, 27, PutBE(8, now), d);
    AtSplit(s, 35, PutBE(8, now), e);
    AtSplit(s, 43, PutBE(8, -1), f);
    AtSplit(s, 51, PutBE(2, -1), g);
    AtSplit(s, 53, PutBE(4, -1), h);
    AtSplit(s, 57, PutBE(4, 1), MetadataBatches.RecordBytes(value));
    Read16(s, 21, 0);
    Read32(s, 23, 0);
    Read64(s, 27, now);
    Read64(s, 35, now);
    Read64(s, 43, -1);
    Read16(s, 51, -1);
    Read32(s, 53, -1);
    Read32(s, 57, 1);
  }
}
