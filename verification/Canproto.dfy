/** The generated CAN message code (generated/canproto.c) and its refinement of the
    signal layout in dbc/canproto.dbc. */
module Canproto {
  import opened Words
  import opened Bits
  import opened Dbc

  const EINVAL := 22

  // ---- dbc/canproto.dbc ----

  const SEQNUM := Signal(0, 16, Intel)
  const HW_TIMESTAMP := Signal(55, 16, Motorola)
  const CAN1_ERROR := Signal(16, 1, Intel)
  const CAN2_ERROR := Signal(17, 1, Intel)
  const SHELL_ERROR := Signal(19, 1, Intel)
  const CANETH_ERROR := Signal(18, 1, Intel)
  const HEARTBEAT: seq<Signal> := [SEQNUM, HW_TIMESTAMP, CAN1_ERROR, CAN2_ERROR, SHELL_ERROR, CANETH_ERROR]
  const COUNTER := Signal(0, 8, Intel)

  /** struct canproto_heartbeat_t. */
  datatype Heartbeat = Heartbeat(seqnum: u16, can1Error: u8, can2Error: u8, canethError: u8, shellError: u8,
                                 hwTimestamp: u16)

  /** The raw signal values of a message, in the order of HEARTBEAT. */
  function Values(m: Heartbeat): (vals: seq<nat>)
    ensures |vals| == |HEARTBEAT|
  {
    [m.seqnum, m.hwTimestamp, m.can1Error, m.can2Error, m.shellError, m.canethError]
  }

  /** Payload bits of a byte sequence, numbered as in the DBC. */
  function BitsOf(bytes: seq<u8>): (bits: seq<bool>)
    ensures |bits| == 8 * |bytes|
  {
    seq(8 * |bytes|, p requires 0 <= p < 8 * |bytes| => Bit(bytes[p / 8], p % 8))
  }

  // ---- The shift-and-mask helpers ----

  function AndU8(a: u8, b: u8): u8 { AndBound(a, b); And(a, b) }

  function OrU8(a: u8, b: u8): u8 { Pow2Values(); OrBound(a, b, 8); Or(a, b) }

  function OrU16(a: u16, b: u16): u16 { Pow2Values(); OrBound(a, b, 16); Or(a, b) }

  function PackLeftShiftU8(value: u8, shift: nat, mask: u8): u8 { AndU8(Shl(value, shift) % 0x100, mask) }

  function PackLeftShiftU16(value: u16, shift: nat, mask: u8): u8 { AndU8(Shl(value, shift) % 0x100, mask) }

  function PackRightShiftU16(value: u16, shift: nat, mask: u8): u8 { AndU8(Shr(value, shift) % 0x100, mask) }

  function UnpackLeftShiftU16(value: u8, shift: nat, mask: u8): u16 { Shl(AndU8(value, mask), shift) % 0x1_0000 }

  function UnpackRightShiftU8(value: u8, shift: nat, mask: u8): u8
  {
    ShrBound(AndU8(value, mask), shift);
    Shr(AndU8(value, mask), shift)
  }

  function UnpackRightShiftU16(value: u8, shift: nat, mask: u8): u16
  {
    ShrBound(AndU8(value, mask), shift);
    Shr(AndU8(value, mask), shift)
  }

  lemma PackLeftBits(value: u16, shift: nat, mask: u8, i: nat)
    ensures Bit(PackLeftShiftU16(value, shift, mask), i) <==> shift <= i < 8 && Bit(mask, i) && Bit(value, i - shift)
    ensures value < 0x100 ==> PackLeftShiftU8(value, shift, mask) == PackLeftShiftU16(value, shift, mask)
  {
    Pow2Values();
    BitAnd(Shl(value, shift) % 0x100, mask, i);
    BitMod(Shl(value, shift), 8, i);
    BitShl(value, shift, i);
  }

  lemma PackRightBits(value: u16, shift: nat, mask: u8, i: nat)
    ensures Bit(PackRightShiftU16(value, shift, mask), i) <==> i < 8 && Bit(mask, i) && Bit(value, i + shift)
  {
    Pow2Values();
    BitAnd(Shr(value, shift) % 0x100, mask, i);
    BitMod(Shr(value, shift), 8, i);
    BitShr(value, shift, i);
  }

  lemma UnpackLeftBits(value: u8, shift: nat, mask: u8, i: nat)
    ensures Bit(UnpackLeftShiftU16(value, shift, mask), i)
            <==> shift <= i < 16 && Bit(mask, i - shift) && Bit(value, i - shift)
  {
    Pow2Values();
    BitMod(Shl(AndU8(value, mask), shift), 16, i);
    BitShl(AndU8(value, mask), shift, i);
    if i >= shift { BitAnd(value, mask, i - shift); }
  }

  lemma UnpackRightBits(value: u8, shift: nat, mask: u8, i: nat)
    ensures Bit(UnpackRightShiftU16(value, shift, mask), i) <==> Bit(mask, i + shift) && Bit(value, i + shift)
    ensures UnpackRightShiftU8(value, shift, mask) == UnpackRightShiftU16(value, shift, mask)
  {
    BitShr(AndU8(value, mask), shift, i);
    BitAnd(value, mask, i + shift);
  }

  // ---- Heartbeat ----

  /** Byte 2 of a heartbeat after the four flag stores. */
  function FlagByte(m: Heartbeat): u8
  {
    var b1 := OrU8(0, PackLeftShiftU8(m.can1Error, 0, 0x01));
    var b2 := OrU8(b1, PackLeftShiftU8(m.can2Error, 1, 0x02));
    var b3 := OrU8(b2, PackLeftShiftU8(m.canethError, 2, 0x04));
    OrU8(b3, PackLeftShiftU8(m.shellError, 3, 0x08))
  }

  /** The eight bytes canproto_heartbeat_pack writes. */
  function HeartbeatBytes(m: Heartbeat): (bytes: seq<u8>)
    ensures |bytes| == 8
  {
    [ OrU8(0, PackLeftShiftU16(m.seqnum, 0, 0xff)),
      OrU8(0, PackRightShiftU16(m.seqnum, 8, 0xff)),
      FlagByte(m), 0, 0, 0,
      OrU8(0, PackRightShiftU16(m.hwTimestamp, 8, 0xff)),
      OrU8(0, PackLeftShiftU16(m.hwTimestamp, 0, 0xff)) ]
  }

  /** The message canproto_heartbeat_unpack reads from the first eight bytes. */
  function HeartbeatOf(bytes: seq<u8>): Heartbeat
    requires |bytes| >= 8
  {
    Heartbeat(OrU16(UnpackRightShiftU16(bytes[0], 0, 0xff), UnpackLeftShiftU16(bytes[1], 8, 0xff)),
              UnpackRightShiftU8(bytes[2], 0, 0x01),
              UnpackRightShiftU8(bytes[2], 1, 0x02),
              UnpackRightShiftU8(bytes[2], 2, 0x04),
              UnpackRightShiftU8(bytes[2], 3, 0x08),
              OrU16(UnpackLeftShiftU16(bytes[6], 8, 0xff), UnpackRightShiftU16(bytes[7], 0, 0xff)))
  }

  /** canproto_heartbeat_*_is_in_range, all of them. */
  predicate InRange(m: Heartbeat)
  {
    m.can1Error <= 1 && m.can2Error <= 1 && m.canethError <= 1 && m.shellError <= 1
  }

  /** Which payload bits belong to a heartbeat signal. */
  predicate UsedBit(p: nat) { p < 20 || 48 <= p < 64 }

  lemma HeartbeatPositions(i: nat)
    requires i < 16
    ensures Pos(SEQNUM, i) == i
    ensures Pos(HW_TIMESTAMP, i) == if i < 8 then 56 + i else 48 + (i - 8)
    ensures Pos(CAN1_ERROR, 0) == 16 && Pos(CAN2_ERROR, 0) == 17
    ensures Pos(CANETH_ERROR, 0) == 18 && Pos(SHELL_ERROR, 0) == 19
  {
  }

  lemma HeartbeatLayoutValid()
    ensures ValidLayout(HEARTBEAT, 64)
    ensures forall p :: 0 <= p < 64 ==> (Used(HEARTBEAT, p) <==> UsedBit(p))
  {
    forall i | 0 <= i < 16
      ensures Pos(SEQNUM, i) == i
      ensures Pos(HW_TIMESTAMP, i) == if i < 8 then 56 + i else 48 + (i - 8)
    {
      HeartbeatPositions(i);
    }
    forall p | 0 <= p < 64 && UsedBit(p)
      ensures Used(HEARTBEAT, p)
    {
      if p < 16 {
        assert Pos(HEARTBEAT[0], p) == p && Covers(HEARTBEAT[0], p);
      } else if p >= 56 {
        assert Pos(HEARTBEAT[1], p - 56) == p && Covers(HEARTBEAT[1], p);
      } else if p >= 48 {
        assert Pos(HEARTBEAT[1], p - 40) == p && Covers(HEARTBEAT[1], p);
      } else if p == 16 {
        assert Pos(HEARTBEAT[2], 0) == p && Covers(HEARTBEAT[2], p);
      } else if p == 17 {
        assert Pos(HEARTBEAT[3], 0) == p && Covers(HEARTBEAT[3], p);
      } else if p == 19 {
        assert Pos(HEARTBEAT[4], 0) == p && Covers(HEARTBEAT[4], p);
      } else {
        assert Pos(HEARTBEAT[5], 0) == p && Covers(HEARTBEAT[5], p);
      }
    }
  }

  /** The 64 payload bits of a packed heartbeat: little-endian seqnum, four flag bits,
      big-endian hw_timestamp, and nothing else. */
  lemma HeartbeatByteBits(m: Heartbeat, i: nat)
    requires i < 8
    ensures var b := HeartbeatBytes(m);
            && Bit(b[0], i) == Bit(m.seqnum, i)
            && Bit(b[1], i) == Bit(m.seqnum, i + 8)
            && !Bit(b[3], i) && !Bit(b[4], i) && !Bit(b[5], i)
            && Bit(b[6], i) == Bit(m.hwTimestamp, i + 8)
            && Bit(b[7], i) == Bit(m.hwTimestamp, i)
  {
    BitZero(i);
    Masks(i);
    PackLeftBits(m.seqnum, 0, 0xff, i);
    PackRightBits(m.seqnum, 8, 0xff, i);
    PackLeftBits(m.hwTimestamp, 0, 0xff, i);
    PackRightBits(m.hwTimestamp, 8, 0xff, i);
    BitOr(0, PackLeftShiftU16(m.seqnum, 0, 0xff), i);
    BitOr(0, PackRightShiftU16(m.seqnum, 8, 0xff), i);
    BitOr(0, PackRightShiftU16(m.hwTimestamp, 8, 0xff), i);
    BitOr(0, PackLeftShiftU16(m.hwTimestamp, 0, 0xff), i);
  }

  lemma FlagByteBits(m: Heartbeat, i: nat)
    ensures Bit(FlagByte(m), i)
            <==> (i == 0 && Bit(m.can1Error, 0)) || (i == 1 && Bit(m.can2Error, 0))
                 || (i == 2 && Bit(m.canethError, 0)) || (i == 3 && Bit(m.shellError, 0))
  {
    BitZero(i);
    Masks(i);
    PackLeftBits(m.can1Error, 0, 0x01, i);
    PackLeftBits(m.can2Error, 1, 0x02, i);
    PackLeftBits(m.canethError, 2, 0x04, i);
    PackLeftBits(m.shellError, 3, 0x08, i);
    var p1, p2 := PackLeftShiftU8(m.can1Error, 0, 0x01), PackLeftShiftU8(m.can2Error, 1, 0x02);
    var p3, p4 := PackLeftShiftU8(m.canethError, 2, 0x04), PackLeftShiftU8(m.shellError, 3, 0x08);
    BitOr(0, p1, i);
    BitOr(OrU8(0, p1), p2, i);
    BitOr(OrU8(OrU8(0, p1), p2), p3, i);
    BitOr(OrU8(OrU8(OrU8(0, p1), p2), p3), p4, i);
  }

  /** Each payload bit of a packed heartbeat, by position. */
  lemma PayloadBit(m: Heartbeat, p: nat)
    requires p < 64
    ensures BitsOf(HeartbeatBytes(m))[p]
            == if p < 16 then Bit(m.seqnum, p)
               else if p < 24 then Bit(FlagByte(m), p - 16)
               else if p < 48 then false
               else if p < 56 then Bit(m.hwTimestamp, p - 40)
               else Bit(m.hwTimestamp, p - 56)
  {
    HeartbeatByteBits(m, p % 8);
  }

  /** The generated packer is the DBC layout, for every message whatever its flags. */
  lemma HeartbeatRefinesDbc(m: Heartbeat)
    ensures ValidLayout(HEARTBEAT, 64)
    ensures BitsOf(HeartbeatBytes(m)) == Pack(HEARTBEAT, Values(m), 64)
  {
    HeartbeatLayoutValid();
    var bits, vals := BitsOf(HeartbeatBytes(m)), Values(m);
    forall k, i | 0 <= k < |HEARTBEAT| && 0 <= i < HEARTBEAT[k].length
      ensures bits[Pos(HEARTBEAT[k], i)] == Bit(vals[k], i)
    {
      HeartbeatPositions(i);
      PayloadBit(m, Pos(HEARTBEAT[k], i));
      if k >= 2 { FlagByteBits(m, Pos(HEARTBEAT[k], i) - 16); }
    }
    forall p | 0 <= p < 64 && !Used(HEARTBEAT, p)
      ensures !bits[p]
    {
      PayloadBit(m, p);
      if p < 24 { FlagByteBits(m, p - 16); }
    }
    PackIsLayout(HEARTBEAT, vals, 64);
    LayoutUnique(bits, Pack(HEARTBEAT, vals, 64), HEARTBEAT, vals);
  }

  lemma FlagUnpacked(byte: u8, k: nat, mask: u8)
    requires k < 4 && mask == Shl(1, k)
    ensures UnpackRightShiftU8(byte, k, mask) == Num(Bit(byte, k)) <= 1
  {
    var v := UnpackRightShiftU8(byte, k, mask);
    Pow2Values();
    forall i | 0 <= i < 8
      ensures Bit(v, i) == Bit(Num(Bit(byte, k)), i)
    {
      UnpackRightBits(byte, k, mask, i);
      Masks(i);
      Masks(i + k);
      BitZero(i);
    }
    SameBits(v, Num(Bit(byte, k)), 8);
  }

  /** The generated unpacker reads every signal where the DBC puts it. */
  lemma HeartbeatUnpackRefinesDbc(bytes: seq<u8>)
    requires |bytes| == 8
    ensures ValidLayout(HEARTBEAT, 64)
    ensures Unpacks(BitsOf(bytes), HEARTBEAT, Values(HeartbeatOf(bytes)))
  {
    HeartbeatLayoutValid();
    SeqnumUnpacked(bytes);
    TimestampUnpacked(bytes);
    FlagsUnpacked(bytes);
    SignalBySignal(HeartbeatOf(bytes), BitsOf(bytes));
  }

  lemma SignalBySignal(m: Heartbeat, bits: seq<bool>)
    requires ValidLayout(HEARTBEAT, 64) && |bits| == 64
    requires forall i :: 0 <= i < 16 ==> Pos(SEQNUM, i) < 64 && Pos(HW_TIMESTAMP, i) < 64
    requires Pos(CAN1_ERROR, 0) < 64 && Pos(CAN2_ERROR, 0) < 64 && Pos(CANETH_ERROR, 0) < 64 && Pos(SHELL_ERROR, 0) < 64
    requires m.seqnum == Unpack(bits, SEQNUM) && m.hwTimestamp == Unpack(bits, HW_TIMESTAMP)
    requires m.can1Error == Unpack(bits, CAN1_ERROR) && m.can2Error == Unpack(bits, CAN2_ERROR)
    requires m.shellError == Unpack(bits, SHELL_ERROR) && m.canethError == Unpack(bits, CANETH_ERROR)
    ensures Unpacks(bits, HEARTBEAT, Values(m))
  {
    forall k | 0 <= k < |HEARTBEAT|
      ensures Values(m)[k] == Unpack(bits, HEARTBEAT[k])
    {
      FieldOf(m, k);
    }
  }

  /** Which field each signal of the layout is. */
  lemma FieldOf(m: Heartbeat, k: nat)
    requires k < |HEARTBEAT|
    ensures (HEARTBEAT[k], Values(m)[k]) ==
              if k == 0 then (SEQNUM, m.seqnum)
              else if k == 1 then (HW_TIMESTAMP, m.hwTimestamp)
              else if k == 2 then (CAN1_ERROR, m.can1Error)
              else if k == 3 then (CAN2_ERROR, m.can2Error)
              else if k == 4 then (SHELL_ERROR, m.shellError)
              else (CANETH_ERROR, m.canethError)
  {
  }

  lemma SeqnumUnpacked(bytes: seq<u8>)
    requires |bytes| == 8 && forall i :: 0 <= i < 16 ==> Pos(SEQNUM, i) < 64
    ensures OrU16(UnpackRightShiftU16(bytes[0], 0, 0xff), UnpackLeftShiftU16(bytes[1], 8, 0xff))
            == Unpack(BitsOf(bytes), SEQNUM)
  {
    var bits := BitsOf(bytes);
    forall i | 0 <= i < 16
      ensures bits[Pos(SEQNUM, i)] == if i < 8 then Bit(bytes[0], i) else Bit(bytes[1], i - 8)
    {
      HeartbeatPositions(i);
    }
    JoinedUnpack(bits, SEQNUM, bytes[0], bytes[1]);
  }

  lemma TimestampBits(bytes: seq<u8>)
    requires |bytes| == 8
    ensures forall i :: 0 <= i < 16 ==>
              && Pos(HW_TIMESTAMP, i) < |BitsOf(bytes)|
              && BitsOf(bytes)[Pos(HW_TIMESTAMP, i)] == if i < 8 then Bit(bytes[7], i) else Bit(bytes[6], i - 8)
  {
    forall i | 0 <= i < 16
      ensures && Pos(HW_TIMESTAMP, i) < |BitsOf(bytes)|
              && BitsOf(bytes)[Pos(HW_TIMESTAMP, i)] == if i < 8 then Bit(bytes[7], i) else Bit(bytes[6], i - 8)
    {
      HeartbeatPositions(i);
    }
  }

  lemma TimestampUnpacked(bytes: seq<u8>)
    requires |bytes| == 8 && forall i :: 0 <= i < 16 ==> Pos(HW_TIMESTAMP, i) < 64
    ensures OrU16(UnpackLeftShiftU16(bytes[6], 8, 0xff), UnpackRightShiftU16(bytes[7], 0, 0xff))
            == Unpack(BitsOf(bytes), HW_TIMESTAMP)
  {
    TimestampBits(bytes);
    JoinedUnpack(BitsOf(bytes), HW_TIMESTAMP, bytes[7], bytes[6]);
  }

  /** A 16-bit signal spread over two bytes is what the unpack helpers join. */
  lemma JoinedUnpack(bits: seq<bool>, sig: Signal, low: u8, high: u8)
    requires sig.length == 16 && forall i :: 0 <= i < 16 ==> Pos(sig, i) < |bits|
    requires forall i :: 0 <= i < 16 ==>
               bits[Pos(sig, i)] == if i < 8 then Bit(low, i) else Bit(high, i - 8)
    ensures Unpack(bits, sig) == OrU16(UnpackRightShiftU16(low, 0, 0xff), UnpackLeftShiftU16(high, 8, 0xff))
    ensures Unpack(bits, sig) == OrU16(UnpackLeftShiftU16(high, 8, 0xff), UnpackRightShiftU16(low, 0, 0xff))
  {
    var v := OrU16(UnpackRightShiftU16(low, 0, 0xff), UnpackLeftShiftU16(high, 8, 0xff));
    OrCommutes(UnpackLeftShiftU16(high, 8, 0xff), UnpackRightShiftU16(low, 0, 0xff));
    UnpackBits(bits, sig);
    forall i | 0 <= i < 16
      ensures Bit(v, i) == Bit(Unpack(bits, sig), i)
    {
      WideBits(low, high, i);
    }
    Pow2Values();
    SameBits(v, Unpack(bits, sig), 16);
  }

  lemma FlagsUnpacked(bytes: seq<u8>)
    requires |bytes| == 8
    ensures Pos(CAN1_ERROR, 0) < 64 && Pos(CAN2_ERROR, 0) < 64 && Pos(CANETH_ERROR, 0) < 64 && Pos(SHELL_ERROR, 0) < 64
    ensures HeartbeatOf(bytes).can1Error == Unpack(BitsOf(bytes), CAN1_ERROR)
    ensures HeartbeatOf(bytes).can2Error == Unpack(BitsOf(bytes), CAN2_ERROR)
    ensures HeartbeatOf(bytes).canethError == Unpack(BitsOf(bytes), CANETH_ERROR)
    ensures HeartbeatOf(bytes).shellError == Unpack(BitsOf(bytes), SHELL_ERROR)
    ensures InRange(HeartbeatOf(bytes))
  {
    var bits := BitsOf(bytes);
    HeartbeatPositions(0);
    FlagUnpacked(bytes[2], 0, 0x01);
    FlagUnpacked(bytes[2], 1, 0x02);
    FlagUnpacked(bytes[2], 2, 0x04);
    FlagUnpacked(bytes[2], 3, 0x08);
    OneBitUnpack(bits, CAN1_ERROR);
    OneBitUnpack(bits, CAN2_ERROR);
    OneBitUnpack(bits, CANETH_ERROR);
    OneBitUnpack(bits, SHELL_ERROR);
  }

  lemma OneBitUnpack(bits: seq<bool>, sig: Signal)
    requires sig.length == 1 && Pos(sig, 0) < |bits|
    ensures Unpack(bits, sig) == Num(bits[Pos(sig, 0)])
  {
    assert Gather(bits, sig, 1) == 0;
  }

  /** Two bytes joined by the unpack helpers: low keeps its bits, high moves up 8. */
  lemma WideBits(low: u8, high: u8, i: nat)
    requires i < 16
    ensures Bit(OrU16(UnpackRightShiftU16(low, 0, 0xff), UnpackLeftShiftU16(high, 8, 0xff)), i)
            == if i < 8 then Bit(low, i) else Bit(high, i - 8)
  {
    var a, b := UnpackRightShiftU16(low, 0, 0xff), UnpackLeftShiftU16(high, 8, 0xff);
    BitOr(a, b, i);
    UnpackRightBits(low, 0, 0xff, i);
    UnpackLeftBits(high, 8, 0xff, i);
    Masks(i);
    if i >= 8 { Masks(i - 8); }
  }

  /** Unpack after pack is the identity on exactly the messages whose flags are in range. */
  lemma HeartbeatPackUnpack(m: Heartbeat)
    ensures HeartbeatOf(HeartbeatBytes(m)) == m <==> InRange(m)
  {
    HeartbeatRefinesDbc(m);
    HeartbeatUnpackRefinesDbc(HeartbeatBytes(m));
    ReadBack(m, HeartbeatOf(HeartbeatBytes(m)), Pack(HEARTBEAT, Values(m), 64));
  }

  lemma ReadBack(m: Heartbeat, m': Heartbeat, bits: seq<bool>)
    requires ValidLayout(HEARTBEAT, 64) && bits == Pack(HEARTBEAT, Values(m), 64)
    requires Unpacks(bits, HEARTBEAT, Values(m'))
    ensures m' == m <==> InRange(m)
  {
    forall k | 0 <= k < |HEARTBEAT|
      ensures Values(m')[k] == Values(m)[k] <==> Values(m)[k] < Pow2(HEARTBEAT[k].length)
    {
      PackThenUnpack(HEARTBEAT, Values(m), 64, k);
    }
    FieldByField(m, m');
  }

  lemma FieldByField(m: Heartbeat, m': Heartbeat)
    requires forall k :: 0 <= k < |HEARTBEAT| ==>
               (Values(m')[k] == Values(m)[k] <==> Values(m)[k] < Pow2(HEARTBEAT[k].length))
    ensures m' == m <==> InRange(m)
  {
    Pow2Values();
    var vals, vals' := Values(m), Values(m');
    assert vals'[0] == vals[0] && vals'[1] == vals[1];
    assert vals'[2] == vals[2] <==> m.can1Error <= 1;
    assert vals'[3] == vals[3] <==> m.can2Error <= 1;
    assert vals'[4] == vals[4] <==> m.shellError <= 1;
    assert vals'[5] == vals[5] <==> m.canethError <= 1;
  }

  /** Pack after unpack reproduces the bytes with exactly the unused bits cleared. */
  lemma HeartbeatUnpackPack(bytes: seq<u8>)
    requires |bytes| == 8
    ensures BitsOf(HeartbeatBytes(HeartbeatOf(bytes)))
            == seq(64, p requires 0 <= p < 64 => BitsOf(bytes)[p] && UsedBit(p))
    ensures InRange(HeartbeatOf(bytes))
  {
    HeartbeatRefinesDbc(HeartbeatOf(bytes));
    HeartbeatUnpackRefinesDbc(bytes);
    HeartbeatLayoutValid();
    UnpackThenPack(BitsOf(bytes), HEARTBEAT, Values(HeartbeatOf(bytes)));
    FlagsUnpacked(bytes);
  }

  // ---- DoWork0 ----

  /** The eight bytes canproto_do_work0_pack writes. */
  function DoWork0Bytes(counter: u8): (bytes: seq<u8>)
    ensures |bytes| == 8
  {
    [OrU8(0, PackLeftShiftU8(counter, 0, 0xff)), 0, 0, 0, 0, 0, 0, 0]
  }

  /** The counter canproto_do_work0_unpack reads. */
  function CounterOf(bytes: seq<u8>): u8
    requires |bytes| >= 8
  {
    UnpackRightShiftU8(bytes[0], 0, 0xff)
  }

  /** The counter is the first byte, which is the DBC signal. */
  lemma DoWork0RefinesDbc(bytes: seq<u8>)
    requires |bytes| == 8
    ensures forall i :: 0 <= i < COUNTER.length ==> Pos(COUNTER, i) < 64
    ensures CounterOf(bytes) == bytes[0] == Unpack(BitsOf(bytes), COUNTER)
  {
    Pow2Values();
    UnpackBits(BitsOf(bytes), COUNTER);
    forall i | 0 <= i < 8
      ensures Bit(CounterOf(bytes), i) == Bit(bytes[0], i) == Bit(Unpack(BitsOf(bytes), COUNTER), i)
    {
      CounterBits(bytes, i);
    }
    SameBits(CounterOf(bytes), bytes[0], 8);
    SameBits(CounterOf(bytes), Unpack(BitsOf(bytes), COUNTER), 8);
  }

  lemma CounterBits(bytes: seq<u8>, i: nat)
    requires |bytes| == 8 && i < 8
    ensures Bit(CounterOf(bytes), i) == Bit(bytes[0], i) == BitsOf(bytes)[Pos(COUNTER, i)]
  {
    Masks(i);
    UnpackRightBits(bytes[0], 0, 0xff, i);
    assert Pos(COUNTER, i) == i && BitsOf(bytes)[i] == Bit(bytes[0], i);
  }

  /** canproto_do_work0_unpack from a buffer said to hold size bytes: the first byte, or an
      error, and then the counter stays what it was. */
  method DoWork0Unpack(src: seq<u8>, size: nat, counter: u8) returns (ret: int, counter': u8)
    requires |src| == 8
    ensures size < 8 ==> ret == -EINVAL && counter' == counter
    ensures size >= 8 ==> ret == 0 && counter' == src[0]
  {
    if size < 8 { return -EINVAL, counter; }
    DoWork0RefinesDbc(src);
    return 0, UnpackRightShiftU8(src[0], 0, 0xff);
  }

  lemma DoWork0PackUnpack(counter: u8)
    ensures CounterOf(DoWork0Bytes(counter)) == counter
  {
    Pow2Values();
    var b := DoWork0Bytes(counter)[0];
    DoWork0RefinesDbc(DoWork0Bytes(counter));
    forall i | 0 <= i < 8
      ensures Bit(b, i) == Bit(counter, i)
    {
      Masks(i);
      BitZero(i);
      PackLeftBits(counter, 0, 0xff, i);
      BitOr(0, PackLeftShiftU8(counter, 0, 0xff), i);
    }
    SameBits(b, counter, 8);
  }

  // ---- The functions as written: byte buffers and structs updated in place ----

  /** memset(&dst_p[0], 0, 8). */
  method ClearEight(dst: array<u8>)
    requires dst.Length >= 8
    modifies dst
    ensures dst[..8] == [0, 0, 0, 0, 0, 0, 0, 0] && dst[8..] == old(dst[8..])
  {
    for i := 0 to 8
      invariant forall j :: 0 <= j < i ==> dst[j] == 0
      invariant dst[8..] == old(dst[8..])
    {
      dst[i] := 0;
    }
  }

  /** canproto_heartbeat_pack: the DBC layout in the first eight bytes, or an error and
      nothing written when the buffer is short. */
  method HeartbeatPack(dst: array<u8>, src: Heartbeat, size: nat) returns (ret: int)
    requires size <= dst.Length
    modifies dst
    ensures size < 8 ==> ret == -EINVAL && dst[..] == old(dst[..])
    ensures size >= 8 ==> ret == 8 && dst[..8] == HeartbeatBytes(src) && dst[8..] == old(dst[8..])
  {
    if size < 8 { return -EINVAL; }
    ClearEight(dst);
    ghost var rest := dst[8..];
    assert forall i :: 0 <= i < 8 ==> dst[i] == dst[..8][i] == 0;
    dst[0] := OrU8(dst[0], PackLeftShiftU16(src.seqnum, 0, 0xff));
    dst[1] := OrU8(dst[1], PackRightShiftU16(src.seqnum, 8, 0xff));
    dst[2] := OrU8(dst[2], PackLeftShiftU8(src.can1Error, 0, 0x01));
    dst[2] := OrU8(dst[2], PackLeftShiftU8(src.can2Error, 1, 0x02));
    dst[2] := OrU8(dst[2], PackLeftShiftU8(src.canethError, 2, 0x04));
    dst[2] := OrU8(dst[2], PackLeftShiftU8(src.shellError, 3, 0x08));
    dst[6] := OrU8(dst[6], PackRightShiftU16(src.hwTimestamp, 8, 0xff));
    dst[7] := OrU8(dst[7], PackLeftShiftU16(src.hwTimestamp, 0, 0xff));
    return 8;
  }

  /** struct canproto_heartbeat_t in memory. */
  class HeartbeatStruct {
    var seqnum: u16
    var can1Error: u8
    var can2Error: u8
    var canethError: u8
    var shellError: u8
    var hwTimestamp: u16

    /** An uninitialised local: any field values. */
    constructor ()
    {
    }

    function Value(): Heartbeat
      reads this
    {
      Heartbeat(seqnum, can1Error, can2Error, canethError, shellError, hwTimestamp)
    }

    /** canproto_heartbeat_init. */
    method Init() returns (ret: int)
      modifies this
      ensures ret == 0 && Value() == Heartbeat(0, 0, 0, 0, 0, 0)
    {
      seqnum, can1Error, can2Error, canethError, shellError, hwTimestamp := 0, 0, 0, 0, 0, 0;
      return 0;
    }

    /** canproto_heartbeat_unpack. */
    method Unpack(src: array<u8>, size: nat) returns (ret: int)
      requires size <= src.Length
      modifies this
      ensures size < 8 ==> ret == -EINVAL && Value() == old(Value())
      ensures size >= 8 ==> ret == 0 && Value() == HeartbeatOf(src[..])
    {
      if size < 8 { return -EINVAL; }
      seqnum := UnpackRightShiftU16(src[0], 0, 0xff);
      seqnum := OrU16(seqnum, UnpackLeftShiftU16(src[1], 8, 0xff));
      can1Error := UnpackRightShiftU8(src[2], 0, 0x01);
      can2Error := UnpackRightShiftU8(src[2], 1, 0x02);
      canethError := UnpackRightShiftU8(src[2], 2, 0x04);
      shellError := UnpackRightShiftU8(src[2], 3, 0x08);
      hwTimestamp := UnpackLeftShiftU16(src[6], 8, 0xff);
      hwTimestamp := OrU16(hwTimestamp, UnpackRightShiftU16(src[7], 0, 0xff));
      return 0;
    }
  }
}
