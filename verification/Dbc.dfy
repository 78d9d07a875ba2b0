/** DBC signal layout: where the bits of a raw signal value go in a CAN payload, for both
    byte orders, and the reference packer and unpacker that follow from it. */
module Dbc {
  import opened Words
  import opened Bits

  datatype ByteOrder = Intel | Motorola

  /** `start|length@order`, unsigned. Bit p of a payload is bit p % 8 of byte p / 8. An
      Intel start is the position of the least significant bit; a Motorola start is the
      position of the most significant one. */
  datatype Signal = Signal(start: nat, length: nat, order: ByteOrder)

  /** Swap the numbering of the bits inside each byte. */
  function Flip(p: nat): nat { p / 8 * 8 + (7 - p % 8) }

  /** Payload position of bit i of the signal's value. A Motorola signal runs from its
      most significant bit downwards through each byte, then on to the next byte. */
  function Pos(sig: Signal, i: nat): nat
    requires i < sig.length
  {
    if sig.order.Intel? then sig.start + i else Flip(Flip(sig.start) + (sig.length - 1 - i))
  }

  lemma FlipTwice(p: nat)
    ensures Flip(Flip(p)) == p
  {
  }

  lemma PosInjective(sig: Signal, i: nat, j: nat)
    requires i < sig.length && j < sig.length && Pos(sig, i) == Pos(sig, j)
    ensures i == j
  {
    if sig.order.Motorola? {
      FlipTwice(Flip(sig.start) + (sig.length - 1 - i));
      FlipTwice(Flip(sig.start) + (sig.length - 1 - j));
    }
  }

  predicate Covers(sig: Signal, p: nat) { exists i :: 0 <= i < sig.length && Pos(sig, i) == p }

  predicate Used(sigs: seq<Signal>, p: nat) { exists k :: 0 <= k < |sigs| && Covers(sigs[k], p) }

  /** Every signal fits in n bits, and no two share a bit. */
  ghost predicate ValidLayout(sigs: seq<Signal>, n: nat)
  {
    && (forall k, i :: 0 <= k < |sigs| && 0 <= i < sigs[k].length ==> Pos(sigs[k], i) < n)
    && (forall k, l, i, j ::
          0 <= k < l < |sigs| && 0 <= i < sigs[k].length && 0 <= j < sigs[l].length
          ==> Pos(sigs[k], i) != Pos(sigs[l], j))
  }

  /** Store the m low bits of v. */
  function Store(bits: seq<bool>, sig: Signal, v: nat, m: nat): (r: seq<bool>)
    requires m <= sig.length && forall i :: 0 <= i < sig.length ==> Pos(sig, i) < |bits|
    ensures |r| == |bits|
  {
    if m == 0 then bits else Store(bits, sig, v, m - 1)[Pos(sig, m - 1) := Bit(v, m - 1)]
  }

  /** The payload of n bits holding all the values, unused bits clear. */
  function Pack(sigs: seq<Signal>, vals: seq<nat>, n: nat): (bits: seq<bool>)
    requires ValidLayout(sigs, n) && |vals| == |sigs|
    ensures |bits| == n
  {
    if sigs == [] then seq(n, _ => false)
    else
      var m := |sigs| - 1;
      Store(Pack(sigs[..m], vals[..m], n), sigs[m], vals[m], sigs[m].length)
  }

  /** The signal's value from bit i up. */
  function Gather(bits: seq<bool>, sig: Signal, i: nat): nat
    requires i <= sig.length && forall i :: 0 <= i < sig.length ==> Pos(sig, i) < |bits|
    decreases sig.length - i
  {
    if i == sig.length then 0 else Num(bits[Pos(sig, i)]) + 2 * Gather(bits, sig, i + 1)
  }

  function Unpack(bits: seq<bool>, sig: Signal): nat
    requires forall i :: 0 <= i < sig.length ==> Pos(sig, i) < |bits|
  {
    Gather(bits, sig, 0)
  }

  lemma {:induction false} StoreBits(bits: seq<bool>, sig: Signal, v: nat, m: nat)
    requires m <= sig.length && forall i :: 0 <= i < sig.length ==> Pos(sig, i) < |bits|
    ensures forall i :: 0 <= i < m ==> Store(bits, sig, v, m)[Pos(sig, i)] == Bit(v, i)
    ensures forall p :: 0 <= p < |bits| && !Covers(sig, p) ==> Store(bits, sig, v, m)[p] == bits[p]
  {
    if m > 0 {
      StoreBits(bits, sig, v, m - 1);
      forall i | 0 <= i < m - 1
        ensures Pos(sig, i) != Pos(sig, m - 1)
      {
        if Pos(sig, i) == Pos(sig, m - 1) { PosInjective(sig, i, m - 1); }
      }
    }
  }

  /** bits is the layout of vals: each value bit in its place, every unused bit clear. */
  ghost predicate IsLayout(bits: seq<bool>, sigs: seq<Signal>, vals: seq<nat>)
    requires ValidLayout(sigs, |bits|) && |vals| == |sigs|
  {
    && (forall k, i :: 0 <= k < |sigs| && 0 <= i < sigs[k].length ==> bits[Pos(sigs[k], i)] == Bit(vals[k], i))
    && (forall p :: 0 <= p < |bits| && !Used(sigs, p) ==> !bits[p])
  }

  lemma {:induction false} PackIsLayout(sigs: seq<Signal>, vals: seq<nat>, n: nat)
    requires ValidLayout(sigs, n) && |vals| == |sigs|
    ensures IsLayout(Pack(sigs, vals, n), sigs, vals)
  {
    if sigs != [] {
      var m := |sigs| - 1;
      var front, last := sigs[..m], sigs[m];
      var before := Pack(front, vals[..m], n);
      PackIsLayout(front, vals[..m], n);
      StoreBits(before, last, vals[m], last.length);
      var after := Pack(sigs, vals, n);
      forall k, i | 0 <= k < |sigs| && 0 <= i < sigs[k].length
        ensures after[Pos(sigs[k], i)] == Bit(vals[k], i)
      {
        if k < m {
          assert front[k] == sigs[k];
          assert !Covers(last, Pos(sigs[k], i));
          assert before[Pos(front[k], i)] == Bit(vals[..m][k], i);
        }
      }
      forall p | 0 <= p < n && !Used(sigs, p)
        ensures !after[p]
      {
        assert !Covers(sigs[m], p);
        forall k | 0 <= k < m
          ensures !Covers(front[k], p)
        {
          assert !Covers(sigs[k], p);
        }
      }
    }
  }

  lemma LayoutUnique(a: seq<bool>, b: seq<bool>, sigs: seq<Signal>, vals: seq<nat>)
    requires |a| == |b| && ValidLayout(sigs, |a|) && |vals| == |sigs|
    requires IsLayout(a, sigs, vals) && IsLayout(b, sigs, vals)
    ensures a == b
  {
    forall p | 0 <= p < |a|
      ensures a[p] == b[p]
    {
      if Used(sigs, p) {
        var k :| 0 <= k < |sigs| && Covers(sigs[k], p);
        var i :| 0 <= i < sigs[k].length && Pos(sigs[k], i) == p;
        assert a[Pos(sigs[k], i)] == b[Pos(sigs[k], i)];
      }
    }
  }

  lemma {:induction false} GatherBits(bits: seq<bool>, sig: Signal, i: nat, j: nat)
    requires i <= sig.length && forall i :: 0 <= i < sig.length ==> Pos(sig, i) < |bits|
    ensures Gather(bits, sig, i) < Pow2(sig.length - i)
    ensures i + j < sig.length ==> Bit(Gather(bits, sig, i), j) == bits[Pos(sig, i + j)]
    decreases sig.length - i
  {
    if i < sig.length {
      var above := Gather(bits, sig, i + 1);
      GatherBits(bits, sig, i + 1, if j == 0 then 0 else j - 1);
      assert Gather(bits, sig, i) / 2 == above;
      if 0 < j && i + j < sig.length {
        assert Bit(above, j - 1) == bits[Pos(sig, i + 1 + (j - 1))];
      }
    }
  }

  /** Unpack is exactly the number whose bits are in the signal's places. */
  lemma UnpackBits(bits: seq<bool>, sig: Signal)
    requires forall i :: 0 <= i < sig.length ==> Pos(sig, i) < |bits|
    ensures Unpack(bits, sig) < Pow2(sig.length)
    ensures forall j :: 0 <= j < sig.length ==> Bit(Unpack(bits, sig), j) == bits[Pos(sig, j)]
  {
    GatherBits(bits, sig, 0, 0);
    forall j | 0 <= j < sig.length
      ensures Bit(Unpack(bits, sig), j) == bits[Pos(sig, j)]
    {
      GatherBits(bits, sig, 0, j);
    }
  }

  /** For any non-overlapping signals of either byte order, packing then unpacking
      returns every value, cut to its signal's width; so exactly the values in range. */
  lemma PackThenUnpack(sigs: seq<Signal>, vals: seq<nat>, n: nat, k: nat)
    requires ValidLayout(sigs, n) && |vals| == |sigs| && k < |sigs|
    ensures Unpack(Pack(sigs, vals, n), sigs[k]) == vals[k] % Pow2(sigs[k].length)
    ensures Unpack(Pack(sigs, vals, n), sigs[k]) == vals[k] <==> vals[k] < Pow2(sigs[k].length)
  {
    var bits, len := Pack(sigs, vals, n), sigs[k].length;
    PackIsLayout(sigs, vals, n);
    UnpackBits(bits, sigs[k]);
    forall i | 0 <= i < len
      ensures Bit(vals[k] % Pow2(len), i) == Bit(Unpack(bits, sigs[k]), i)
    {
      BitMod(vals[k], len, i);
    }
    SameBits(Unpack(bits, sigs[k]), vals[k] % Pow2(len), len);
    if vals[k] < Pow2(len) { ModUnique(vals[k], Pow2(len), 0, vals[k]); }
  }

  /** vals are the signals' values in bits. */
  ghost predicate Unpacks(bits: seq<bool>, sigs: seq<Signal>, vals: seq<nat>)
    requires ValidLayout(sigs, |bits|) && |vals| == |sigs|
  {
    forall k :: 0 <= k < |sigs| ==> vals[k] == Unpack(bits, sigs[k])
  }

  /** Unpacking then packing clears exactly the unused bits. */
  lemma UnpackThenPack(bits: seq<bool>, sigs: seq<Signal>, vals: seq<nat>)
    requires ValidLayout(sigs, |bits|) && |vals| == |sigs| && Unpacks(bits, sigs, vals)
    ensures Pack(sigs, vals, |bits|) == seq(|bits|, p requires 0 <= p < |bits| => bits[p] && Used(sigs, p))
  {
    var packed := Pack(sigs, vals, |bits|);
    PackIsLayout(sigs, vals, |bits|);
    forall p | 0 <= p < |bits|
      ensures packed[p] == (bits[p] && Used(sigs, p))
    {
      if Used(sigs, p) {
        var k :| 0 <= k < |sigs| && Covers(sigs[k], p);
        var i :| 0 <= i < sigs[k].length && Pos(sigs[k], i) == p;
        UnpackBits(bits, sigs[k]);
        assert packed[Pos(sigs[k], i)] == Bit(vals[k], i);
      }
    }
  }
}
