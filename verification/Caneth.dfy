/** The CANETH datagram (include/caneth.h): byte layout, and a decoder written
    from the documented format that shares nothing with the writer but its sizes. */
module Caneth {
  import opened Words

  const MAGIC_ID: u64 := 0x38393831314F5349
  const VERSION: u8 := 1
  const MAX_COUNT := 16
  const HEADER_SIZE := 12
  const FRAME_SIZE := 15
  const DATAGRAM_MAX_SIZE := HEADER_SIZE + FRAME_SIZE * MAX_COUNT

  type Data8 = s: seq<u8> | |s| == 8 witness [0, 0, 0, 0, 0, 0, 0, 0]

  /** caneth_frame_s, 15 packed bytes. */
  datatype Frame = Frame(id: u32, count: u8, data: Data8, extFlag: u8, rtrFlag: u8)

  /** The contents of a zero-copy UDP buffer. */
  type Payload = s: seq<u8> | |s| == DATAGRAM_MAX_SIZE witness seq(DATAGRAM_MAX_SIZE, _ => 0)

  /** A number of frames a datagram can hold. */
  type Count = n: nat | n <= MAX_COUNT

  // ---- Writing: the stores made through the packed structs ----

  function FrameBytes(f: Frame): (bs: seq<u8>)
    ensures |bs| == FRAME_SIZE
  {
    ToLE(f.id, 4) + [f.count] + f.data + [f.extFlag, f.rtrFlag]
  }

  function HeaderBytes(seqnum: u16, count: u8): (bs: seq<u8>)
    ensures |bs| == HEADER_SIZE
  {
    ToLE(MAGIC_ID, 8) + [VERSION] + ToLE(seqnum, 2) + [count]
  }

  /** Offset of frame k: the header, then k whole frames. */
  function Offset(k: nat): nat { HEADER_SIZE + FRAME_SIZE * k }

  /** buf with the bytes from off on overwritten by src. */
  function Splice(buf: seq<u8>, off: nat, src: seq<u8>): (r: seq<u8>)
    requires off + |src| <= |buf|
    ensures |r| == |buf|
  {
    buf[..off] + src + buf[off + |src|..]
  }

  function WriteFrame(buf: Payload, k: Count, f: Frame): Payload
    requires k < MAX_COUNT
  {
    Splice(buf, Offset(k), FrameBytes(f))
  }

  function WriteHeader(buf: Payload, seqnum: u16, count: u8): Payload
  {
    Splice(buf, 0, HeaderBytes(seqnum, count))
  }

  /** Two adjacent stores are one store. */
  lemma SpliceAdjacent(buf: seq<u8>, off: nat, a: seq<u8>, b: seq<u8>)
    requires off + |a| + |b| <= |buf|
    ensures Splice(Splice(buf, off, a), off + |a|, b) == Splice(buf, off, a + b)
  {
    var s := Splice(buf, off, a);
    assert s[..off + |a|] == buf[..off] + a;
    assert s[off + |a| + |b|..] == buf[off + |a| + |b|..];
  }

  // ---- Reading ----

  datatype Datagram = Datagram(seqnum: u16, frames: seq<Frame>)

  function ParseFrame(bs: seq<u8>): Frame
    requires |bs| == FRAME_SIZE
  {
    ToFromLE(bs[0..4]);
    Pow256Values();
    Frame(FromLE(bs[0..4]), bs[4], bs[5..13], bs[13], bs[14])
  }

  /** The first n frames stored after the header in buf. */
  function Frames(buf: seq<u8>, n: nat): (fs: seq<Frame>)
    requires Offset(n) <= |buf|
    ensures |fs| == n
  {
    if n == 0 then [] else Frames(buf, n - 1) + [ParseFrame(buf[Offset(n - 1)..Offset(n)])]
  }

  /** A receiver following the header's comments: "ISO11898" in ASCII, the version
      byte, a little-endian sequence number, a count of 1 to 16, and exactly that
      many frames. Anything else is not a CANETH datagram. */
  function Decode(bs: seq<u8>): (d: Option<Datagram>)
    ensures d.Some? ==> 1 <= |d.value.frames| <= MAX_COUNT && |bs| == Offset(|d.value.frames|)
  {
    if |bs| < HEADER_SIZE then None
    else if bs[0..8] != [0x49, 0x53, 0x4F, 0x31, 0x31, 0x38, 0x39, 0x38] || bs[8] != 1 then None
    else if !(1 <= bs[11] <= MAX_COUNT) || |bs| != Offset(bs[11]) then None
    else
      ToFromLE(bs[9..11]);
      Pow256Values();
      Some(Datagram(FromLE(bs[9..11]), Frames(bs, bs[11])))
  }

  // ---- Round trips ----

  lemma ParseFrameBytes(f: Frame)
    ensures ParseFrame(FrameBytes(f)) == f
  {
    Pow256Values();
    FromToLE(f.id, 4);
    var bs := FrameBytes(f);
    assert bs[0..4] == ToLE(f.id, 4);
    assert bs[5..13] == f.data;
  }

  lemma FrameBytesParse(bs: seq<u8>)
    requires |bs| == FRAME_SIZE
    ensures FrameBytes(ParseFrame(bs)) == bs
  {
    ToFromLE(bs[0..4]);
    assert bs == bs[0..4] + [bs[4]] + bs[5..13] + [bs[13], bs[14]];
  }

  /** Frames depends only on the bytes it covers. */
  lemma {:induction false} FramesLocal(a: seq<u8>, b: seq<u8>, n: nat)
    requires Offset(n) <= |a| && Offset(n) <= |b|
    requires a[HEADER_SIZE..Offset(n)] == b[HEADER_SIZE..Offset(n)]
    ensures Frames(a, n) == Frames(b, n)
  {
    if n > 0 {
      SliceInTwo(a, n);
      SliceInTwo(b, n);
      FramesLocal(a, b, n - 1);
    }
  }

  /** The bytes of n frames are those of the first n - 1, and those of the last. */
  lemma SliceInTwo(a: seq<u8>, n: nat)
    requires 1 <= n && Offset(n) <= |a|
    ensures var whole, m := a[HEADER_SIZE..Offset(n)], FRAME_SIZE * (n - 1);
            a[HEADER_SIZE..Offset(n - 1)] == whole[..m] && a[Offset(n - 1)..Offset(n)] == whole[m..]
  {
  }

  /** Storing frame k leaves the earlier frames alone and appends f. */
  lemma FramesWriteFrame(buf: Payload, k: Count, f: Frame)
    requires k < MAX_COUNT
    ensures Frames(WriteFrame(buf, k, f), k + 1) == Frames(buf, k) + [f]
  {
    var w := WriteFrame(buf, k, f);
    assert w[HEADER_SIZE..Offset(k)] == buf[HEADER_SIZE..Offset(k)];
    FramesLocal(w, buf, k);
    assert w[Offset(k)..Offset(k + 1)] == FrameBytes(f);
    ParseFrameBytes(f);
  }

  lemma FramesWriteHeader(buf: Payload, seqnum: u16, count: u8, n: Count)
    ensures Frames(WriteHeader(buf, seqnum, count), n) == Frames(buf, n)
  {
    var w := WriteHeader(buf, seqnum, count);
    assert w[HEADER_SIZE..Offset(n)] == buf[HEADER_SIZE..Offset(n)];
    FramesLocal(w, buf, n);
  }

  lemma MagicIsAscii()
    ensures ToLE(MAGIC_ID, 8) == [0x49, 0x53, 0x4F, 0x31, 0x31, 0x38, 0x39, 0x38]
  {
    var bs: seq<u8> := [0x49, 0x53, 0x4F, 0x31, 0x31, 0x38, 0x39, 0x38];
    ToFromLE(bs);
    assert bs[7..] == [0x38];
    assert bs[6..][1..] == bs[7..];
    assert bs[5..][1..] == bs[6..];
    assert bs[4..][1..] == bs[5..];
    assert bs[3..][1..] == bs[4..];
    assert bs[2..][1..] == bs[3..];
    assert bs[1..][1..] == bs[2..];
    assert FromLE(bs[7..]) == 0x38;
    assert FromLE(bs[6..]) == 0x3839;
    assert FromLE(bs[5..]) == 0x383938;
    assert FromLE(bs[4..]) == 0x38393831;
    assert FromLE(bs[3..]) == 0x3839383131;
    assert FromLE(bs[2..]) == 0x38393831314F;
    assert FromLE(bs[1..]) == 0x38393831314F53;
    assert FromLE(bs) == MAGIC_ID;
  }

  /** Sending a buffer whose header has been written decodes to exactly the
      sequence number, and the frames stored in it. */
  lemma DecodeSent(buf: Payload, seqnum: u16, n: Count)
    requires 1 <= n
    requires buf[..HEADER_SIZE] == HeaderBytes(seqnum, n)
    ensures Decode(buf[..Offset(n)]) == Some(Datagram(seqnum, Frames(buf, n)))
  {
    var bs := buf[..Offset(n)];
    var h := HeaderBytes(seqnum, n);
    MagicIsAscii();
    Pow256Values();
    FromToLE(seqnum, 2);
    assert bs[..HEADER_SIZE] == h;
    assert bs[0..8] == h[0..8] == ToLE(MAGIC_ID, 8);
    assert bs[8] == h[8] && bs[11] == h[11];
    assert bs[9..11] == h[9..11] == ToLE(seqnum, 2);
    assert bs[HEADER_SIZE..Offset(n)] == buf[HEADER_SIZE..Offset(n)];
    FramesLocal(bs, buf, n);
  }

  /** Fill an acquired buffer with the given frames from slot 0, in order. */
  function Fill(buf: Payload, frames: seq<Frame>): Payload
    requires |frames| <= MAX_COUNT
  {
    if frames == [] then buf
    else
      var m := |frames| - 1;
      WriteFrame(Fill(buf, frames[..m]), m, frames[m])
  }

  lemma {:induction false} FramesFill(buf: Payload, frames: seq<Frame>)
    requires |frames| <= MAX_COUNT
    ensures Frames(Fill(buf, frames), |frames|) == frames
  {
    if frames != [] {
      var m := |frames| - 1;
      FramesFill(buf, frames[..m]);
      FramesWriteFrame(Fill(buf, frames[..m]), m, frames[m]);
    }
  }

  /** The buffer as it is when the datagram for these frames is sent. */
  function Assembled(junk: Payload, seqnum: u16, frames: seq<Frame>): Payload
    requires |frames| <= MAX_COUNT
  {
    WriteHeader(Fill(junk, frames), seqnum, |frames|)
  }

  lemma AssembledParts(junk: Payload, seqnum: u16, frames: seq<Frame>)
    requires |frames| <= MAX_COUNT
    ensures Assembled(junk, seqnum, frames)[..HEADER_SIZE] == HeaderBytes(seqnum, |frames|)
    ensures Frames(Assembled(junk, seqnum, frames), |frames|) == frames
  {
    FramesFill(junk, frames);
    FramesWriteHeader(Fill(junk, frames), seqnum, |frames|, |frames|);
  }

  /** Round trip with no stale bytes: whatever two acquired buffers held before,
      the bytes sent for the same frames are equal, and they decode to the
      sequence number and exactly those frames. */
  lemma DatagramRoundTrip(junk: Payload, other: Payload, seqnum: u16, frames: seq<Frame>)
    requires 1 <= |frames| <= MAX_COUNT
    ensures var n := |frames|;
            var sent := Assembled(junk, seqnum, frames)[..Offset(n)];
            && Decode(sent) == Some(Datagram(seqnum, frames))
            && sent == Assembled(other, seqnum, frames)[..Offset(n)]
            && |sent| == 12 + 15 * n <= 252
  {
    var n := |frames|;
    var a, b := Assembled(junk, seqnum, frames), Assembled(other, seqnum, frames);
    AssembledParts(junk, seqnum, frames);
    AssembledParts(other, seqnum, frames);
    DecodeSent(a, seqnum, n);
    SameSent(a, b, n);
  }

  lemma SameSent(a: Payload, b: Payload, n: Count)
    requires a[..HEADER_SIZE] == b[..HEADER_SIZE] && Frames(a, n) == Frames(b, n)
    ensures a[..Offset(n)] == b[..Offset(n)]
  {
    BytesFromFrames(a, b, n);
    assert a[..Offset(n)] == a[..HEADER_SIZE] + a[HEADER_SIZE..Offset(n)];
    assert b[..Offset(n)] == b[..HEADER_SIZE] + b[HEADER_SIZE..Offset(n)];
  }

  /** Equal frames are equal bytes: the frame layout has no padding. */
  lemma {:induction false} BytesFromFrames(a: seq<u8>, b: seq<u8>, n: nat)
    requires Offset(n) <= |a| && Offset(n) <= |b|
    requires Frames(a, n) == Frames(b, n)
    ensures a[HEADER_SIZE..Offset(n)] == b[HEADER_SIZE..Offset(n)]
  {
    if n > 0 {
      var m := Offset(n - 1);
      assert Frames(a, n)[..n - 1] == Frames(a, n - 1);
      assert Frames(b, n)[..n - 1] == Frames(b, n - 1);
      BytesFromFrames(a, b, n - 1);
      assert Frames(a, n)[n - 1] == Frames(b, n)[n - 1];
      FrameBytesParse(a[m..Offset(n)]);
      FrameBytesParse(b[m..Offset(n)]);
      assert a[HEADER_SIZE..Offset(n)] == a[HEADER_SIZE..m] + a[m..Offset(n)];
      assert b[HEADER_SIZE..Offset(n)] == b[HEADER_SIZE..m] + b[m..Offset(n)];
    }
  }

  /** The wire format has no slack: a datagram's bytes are determined by what it decodes to. */
  lemma DecodeInjective(a: seq<u8>, b: seq<u8>)
    requires Decode(a).Some? && Decode(a) == Decode(b)
    ensures a == b
  {
    var n := |Decode(a).value.frames|;
    assert Frames(a, n) == Decode(a).value.frames == Frames(b, n);
    BytesFromFrames(a, b, n);
    ToFromLE(a[9..11]);
    ToFromLE(b[9..11]);
    assert a == a[0..8] + [a[8]] + a[9..11] + [a[11]] + a[HEADER_SIZE..Offset(n)];
    assert b == b[0..8] + [b[8]] + b[9..11] + [b[11]] + b[HEADER_SIZE..Offset(n)];
  }
}
