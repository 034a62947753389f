/**
 The CRC-32 of the GPT header and partition array (blk/components/partitioning.c), as section 5.3.2 of the UEFI
 Specification asks for: bit by bit, low bit first, with the reflected polynomial. Words and bytes are sequences of
 bits, least significant first.
 */
module Crc32 {
  import opened Sequences

  datatype Bits = Bits(at: seq<bool>)

  type Word = w: Bits | |w.at| == 32 witness Bits(Fill(32, false))
  type Byte = b: seq<bool> | |b| == 8 witness Fill(8, false)

  const ZERO: Word := Bits(Fill(32, false))
  const ONES: Word := Bits(Fill(32, true))
  const NIL: Byte := Fill(8, false)

  /** 0xEDB88320 */
  const POLYNOMIAL: Word := Bits([
    false, false, false, false, false, true, false, false,
    true, true, false, false, false, false, false, true,
    false, false, false, true, true, true, false, true,
    true, false, true, true, false, true, true, true
  ])

  function Xor(a: Word, b: Word): (r: Word)
    ensures forall j :: 0 <= j < 32 ==> r.at[j] == (a.at[j] != b.at[j])
  {
    Bits(seq(32, j requires 0 <= j < 32 => a.at[j] != b.at[j]))
  }

  function And(a: Word, b: Word): Word
  {
    Bits(seq(32, j requires 0 <= j < 32 => a.at[j] && b.at[j]))
  }

  function HalfOf(a: Word): Word
  {
    Bits(seq(32, j requires 0 <= j < 32 => j < 31 && a.at[j + 1]))
  }

  /** -(crc & 1): all ones or all zeros. */
  function MaskOf(crc: Word): Word
  {
    if crc.at[0] then ONES else ZERO
  }

  function Extend(b: Byte): (r: Word)
    ensures forall j :: 0 <= j < 32 ==> r.at[j] == (j < 8 && b[j])
  {
    Bits(seq(32, j requires 0 <= j < 32 => j < 8 && b[j]))
  }

  /** Names the places where a proof looks at the bits of a round. */
  predicate Bitwise(k: int, crc: Word)
  {
    true
  }

  /** A bit after one round of the inner loop. */
  predicate BitAfter(g: Word, crc: Word, r: Word, j: nat)
    requires j < 32
  {
    r.at[j] == ((j < 31 && crc.at[j + 1]) != (g.at[j] && crc.at[0]))
  }

  /** One round of the inner loop. */
  function BitStep(g: Word, crc: Word): (r: Word)
    ensures forall k {:trigger Bitwise(k, crc)} :: Bitwise(k, crc) ==> forall j: nat :: j < 32 ==>
              BitAfter(g, crc, r, j)
  {
    var r := Xor(HalfOf(crc), And(g, MaskOf(crc)));
    assert forall j: nat :: j < 32 ==> HalfOf(crc).at[j] == (j < 31 && crc.at[j + 1]);
    assert forall j: nat :: j < 32 ==> And(g, MaskOf(crc)).at[j] == (g.at[j] && crc.at[0]);
    assert forall j: nat :: j < 32 ==> BitAfter(g, crc, r, j);
    r
  }

  function Rounds(f: Word -> Word, crc: Word, n: nat): Word
  {
    if n == 0 then crc else f(Rounds(f, crc, n - 1))
  }

  /** One byte. */
  function ByteStep(f: Word -> Word, crc: Word, b: Byte): Word
  {
    Rounds(f, Xor(crc, Extend(b)), 8)
  }

  function Feed(f: Word -> Word, crc: Word, buffer: seq<Byte>): Word
  {
    if buffer == [] then crc else ByteStep(f, Feed(f, crc, buffer[..|buffer| - 1]), buffer[|buffer| - 1])
  }

  function ChecksumWith(f: Word -> Word, buffer: seq<Byte>): Word
  {
    Xor(Feed(f, ONES, buffer), ONES)
  }

  /** The round with the polynomial of the standard. */
  function GptRound(crc: Word): Word
  {
    BitStep(POLYNOMIAL, crc)
  }

  function Checksum(buffer: seq<Byte>): Word
  {
    ChecksumWith(GptRound, buffer)
  }

  // ---- The step is linear and one to one ------------------------------------------------------------

  lemma Same(a: Word, b: Word)
    requires forall j :: 0 <= j < 32 ==> a.at[j] == b.at[j]
    ensures a == b
  {
  }

  lemma XorFacts(a: Word, b: Word, c: Word, d: Word)
    ensures Xor(a, b) == ZERO <==> a == b
    ensures Xor(a, ZERO) == a && Xor(ZERO, a) == a
    ensures Xor(Xor(a, b), Xor(c, d)) == Xor(Xor(a, c), Xor(b, d))
  {
    if Xor(a, b) == ZERO {
      assert forall j :: 0 <= j < 32 ==> Xor(a, b).at[j] == ZERO.at[j];
    }
    Same(Xor(a, ZERO), a);
    Same(Xor(ZERO, a), a);
    Same(Xor(Xor(a, b), Xor(c, d)), Xor(Xor(a, c), Xor(b, d)));
    if a == b {
      Same(Xor(a, b), ZERO);
    }
  }

  /** Names the places where a proof uses what is known of the round; elsewhere it need not be looked at. */
  predicate Look(k: int)
  {
    true
  }

  ghost predicate Linear(f: Word -> Word)
  {
    forall k {:trigger Look(k)} :: Look(k) ==> forall a: Word, b: Word :: f(Xor(a, b)) == Xor(f(a), f(b))
  }

  ghost predicate OneToOne(f: Word -> Word)
  {
    forall k {:trigger Look(k)} :: Look(k) ==> forall a: Word :: f(a) == ZERO <==> a == ZERO
  }

  /** A word whose low bit is clear is just shifted. */
  ghost predicate Shifts(f: Word -> Word)
  {
    forall k {:trigger Look(k)} :: Look(k) ==> forall a: Word :: !a.at[0] ==> f(a) == HalfOf(a)
  }

  lemma BitStepLinear(g: Word, a: Word, b: Word)
    ensures BitStep(g, Xor(a, b)) == Xor(BitStep(g, a), BitStep(g, b))
  {
    assert Bitwise(0, a) && Bitwise(0, b) && Bitwise(0, Xor(a, b));
    var x, y := BitStep(g, Xor(a, b)), Xor(BitStep(g, a), BitStep(g, b));
    forall j | 0 <= j < 32
      ensures x.at[j] == y.at[j]
    {
      assert BitAfter(g, a, BitStep(g, a), j) && BitAfter(g, b, BitStep(g, b), j) && BitAfter(g, Xor(a, b), x, j);
    }
    Same(x, y);
  }

  /** The top bit of the polynomial tells whether the bit shifted out was set. */
  lemma BitStepKernel(g: Word, a: Word)
    requires g.at[31]
    ensures BitStep(g, a) == ZERO <==> a == ZERO
  {
    assert Bitwise(0, a);
    var r := BitStep(g, a);
    assert BitAfter(g, a, r, 31);
    if r == ZERO {
      forall j | 0 <= j < 32
        ensures a.at[j] == ZERO.at[j]
      {
        if j > 0 {
          assert BitAfter(g, a, r, j - 1);
        }
      }
      Same(a, ZERO);
    } else if a == ZERO {
      forall j | 0 <= j < 32
        ensures r.at[j] == ZERO.at[j]
      {
        assert BitAfter(g, a, r, j);
      }
      Same(r, ZERO);
    }
  }

  lemma BitStepShifts(g: Word, a: Word)
    requires !a.at[0]
    ensures BitStep(g, a) == HalfOf(a)
  {
    assert Bitwise(0, a);
    var r := BitStep(g, a);
    forall j | 0 <= j < 32
      ensures r.at[j] == HalfOf(a).at[j]
    {
      assert BitAfter(g, a, r, j);
    }
    Same(r, HalfOf(a));
  }

  lemma GptRoundLinear()
    ensures Linear(GptRound)
  {
    forall a: Word, b: Word
      ensures GptRound(Xor(a, b)) == Xor(GptRound(a), GptRound(b))
    {
      BitStepLinear(POLYNOMIAL, a, b);
    }
  }

  lemma GptRoundOneToOne()
    ensures OneToOne(GptRound)
  {
    assert POLYNOMIAL.at[31];
    forall a: Word
      ensures GptRound(a) == ZERO <==> a == ZERO
    {
      BitStepKernel(POLYNOMIAL, a);
    }
  }

  lemma GptRoundShifts()
    ensures Shifts(GptRound)
  {
    forall a: Word | !a.at[0]
      ensures GptRound(a) == HalfOf(a)
    {
      BitStepShifts(POLYNOMIAL, a);
    }
  }

  lemma GptRoundIs()
    ensures Linear(GptRound) && OneToOne(GptRound) && Shifts(GptRound)
  {
    GptRoundLinear();
    GptRoundOneToOne();
    GptRoundShifts();
  }

  lemma {:induction false} RoundsLinear(f: Word -> Word, a: Word, b: Word, n: nat)
    requires Linear(f)
    ensures Rounds(f, Xor(a, b), n) == Xor(Rounds(f, a, n), Rounds(f, b, n))
  {
    if n > 0 {
      assert Look(0);
      RoundsLinear(f, a, b, n - 1);
    }
  }

  lemma {:induction false} RoundsKernel(f: Word -> Word, a: Word, n: nat)
    requires OneToOne(f)
    ensures Rounds(f, a, n) == ZERO <==> a == ZERO
  {
    if n > 0 {
      assert Look(0);
      RoundsKernel(f, a, n - 1);
    }
  }

  lemma {:induction false} RoundsAdd(f: Word -> Word, a: Word, m: nat, n: nat)
    ensures Rounds(f, Rounds(f, a, m), n) == Rounds(f, a, m + n)
  {
    if n > 0 {
      RoundsAdd(f, a, m, n - 1);
    }
  }

  /** Rounds on a word whose low bits are clear just shift. */
  lemma {:induction false} RoundsShift(f: Word -> Word, a: Word, n: nat)
    requires Shifts(f) && n <= 32 && forall j :: 0 <= j < n ==> !a.at[j]
    ensures forall j :: 0 <= j < 32 ==> Rounds(f, a, n).at[j] == (j + n < 32 && a.at[j + n])
  {
    if n > 0 {
      assert Look(0);
      RoundsShift(f, a, n - 1);
      var w := Rounds(f, a, n - 1);
      assert !w.at[0];
      assert Rounds(f, a, n) == HalfOf(w);
      forall j | 0 <= j < 32
        ensures HalfOf(w).at[j] == (j + n < 32 && a.at[j + n])
      {
        assert j < 31 ==> w.at[j + 1] == (j + 1 + (n - 1) < 32 && a.at[j + 1 + (n - 1)]);
      }
    }
  }

  // ---- Whole buffers ------------------------------------------------------------------------------------

  function XorByte(a: Byte, b: Byte): (r: Byte)
    ensures forall j :: 0 <= j < 8 ==> r[j] == (a[j] != b[j])
  {
    seq(8, j requires 0 <= j < 8 => a[j] != b[j])
  }

  function XorAll(a: seq<Byte>, b: seq<Byte>): (r: seq<Byte>)
    requires |a| == |b|
    ensures |r| == |a| && forall i :: 0 <= i < |a| ==> r[i] == XorByte(a[i], b[i])
  {
    seq(|a|, i requires 0 <= i < |a| => XorByte(a[i], b[i]))
  }

  lemma ByteStepLinear(f: Word -> Word, c: Word, d: Word, a: Byte, b: Byte)
    requires Linear(f)
    ensures ByteStep(f, Xor(c, d), XorByte(a, b)) == Xor(ByteStep(f, c, a), ByteStep(f, d, b))
  {
    Same(Extend(XorByte(a, b)), Xor(Extend(a), Extend(b)));
    XorFacts(c, d, Extend(a), Extend(b));
    RoundsLinear(f, Xor(c, Extend(a)), Xor(d, Extend(b)), 8);
  }

  /** The checksum of a difference is the difference of the checksums. */
  lemma {:induction false} FeedLinear(f: Word -> Word, c: Word, d: Word, a: seq<Byte>, b: seq<Byte>)
    requires Linear(f) && |a| == |b|
    ensures Feed(f, Xor(c, d), XorAll(a, b)) == Xor(Feed(f, c, a), Feed(f, d, b))
  {
    if a != [] {
      var n := |a| - 1;
      FeedLinear(f, c, d, a[..n], b[..n]);
      assert XorAll(a, b)[..n] == XorAll(a[..n], b[..n]);
      ByteStepLinear(f, Feed(f, c, a[..n]), Feed(f, d, b[..n]), a[n], b[n]);
    }
  }

  lemma {:induction false} FeedAppend(f: Word -> Word, c: Word, a: seq<Byte>, b: seq<Byte>)
    ensures Feed(f, c, a + b) == Feed(f, Feed(f, c, a), b)
  {
    if b == [] {
      assert a + b == a;
    } else {
      FeedAppend(f, c, a, b[..|b| - 1]);
      assert (a + b)[..|a + b| - 1] == a + b[..|b| - 1];
    }
  }

  /** No two states are merged by what follows. */
  lemma {:induction false} FeedInjective(f: Word -> Word, c: Word, d: Word, s: seq<Byte>)
    requires Linear(f) && OneToOne(f)
    ensures Feed(f, c, s) == Feed(f, d, s) <==> c == d
  {
    if s != [] {
      var n := |s| - 1;
      var x, y, e := Feed(f, c, s[..n]), Feed(f, d, s[..n]), Extend(s[n]);
      FeedInjective(f, c, d, s[..n]);
      RoundsLinear(f, Xor(x, e), Xor(y, e), 8);
      RoundsKernel(f, Xor(Xor(x, e), Xor(y, e)), 8);
      XorFacts(Xor(x, e), Xor(y, e), ZERO, ZERO);
      XorFacts(Rounds(f, Xor(x, e), 8), Rounds(f, Xor(y, e), 8), ZERO, ZERO);
      XorCancels(x, y, e);
    }
  }

  lemma XorCancels(x: Word, y: Word, e: Word)
    ensures Xor(x, e) == Xor(y, e) <==> x == y
  {
    if Xor(x, e) == Xor(y, e) {
      forall j | 0 <= j < 32
        ensures x.at[j] == y.at[j]
      {
        assert Xor(x, e).at[j] == Xor(y, e).at[j];
      }
    }
  }

  // ---- Short bursts ---------------------------------------------------------------------------------------

  /** Up to four bytes as one word, the first lowest. */
  function WordOf(u: seq<Byte>): (r: Word)
    requires |u| <= 4
    ensures forall j :: 0 <= j < 32 ==> r.at[j] == (j / 8 < |u| && u[j / 8][j % 8])
  {
    Bits(seq(32, j requires 0 <= j < 32 => j / 8 < |u| && u[j / 8][j % 8]))
  }

  /** A byte at the n-th place of a word. */
  function Placed(b: Byte, n: nat): (r: Word)
    requires n < 4
    ensures forall j :: 0 <= j < 32 ==> r.at[j] == (j / 8 == n && b[j % 8])
  {
    Bits(seq(32, j requires 0 <= j < 32 => j / 8 == n && b[j % 8]))
  }

  /** After so many rounds a byte further up is where the next byte comes in. */
  lemma PlacedArrives(f: Word -> Word, b: Byte, n: nat)
    requires Shifts(f) && n < 4
    ensures Rounds(f, Placed(b, n), 8 * n) == Extend(b)
  {
    RoundsShift(f, Placed(b, n), 8 * n);
    Same(Rounds(f, Placed(b, n), 8 * n), Extend(b));
  }

  /** A byte fed after so many rounds might as well have been there from the start, further up. */
  lemma FedLater(f: Word -> Word, x: Word, b: Byte, n: nat)
    requires Linear(f) && Shifts(f) && n < 4
    ensures ByteStep(f, Rounds(f, x, 8 * n), b) == Rounds(f, Xor(x, Placed(b, n)), 8 * n + 8)
  {
    PlacedArrives(f, b, n);
    RoundsLinear(f, x, Placed(b, n), 8 * n);
    RoundsAdd(f, Xor(x, Placed(b, n)), 8 * n, 8);
  }

  lemma WordGrows(c: Word, u: seq<Byte>)
    requires 0 < |u| <= 4
    ensures var n := |u| - 1; Xor(Xor(c, WordOf(u[..n])), Placed(u[n], n)) == Xor(c, WordOf(u))
  {
    var n := |u| - 1;
    Same(Xor(Xor(c, WordOf(u[..n])), Placed(u[n], n)), Xor(c, WordOf(u)));
  }

  /** Feeding up to four bytes from a state is feeding the state, with the bytes put into it as one word. */
  lemma {:induction false} FeedAsWord(f: Word -> Word, c: Word, u: seq<Byte>)
    requires Linear(f) && Shifts(f) && |u| <= 4
    ensures Feed(f, c, u) == Rounds(f, Xor(c, WordOf(u)), 8 * |u|)
  {
    if u == [] {
      Same(Xor(c, WordOf(u)), c);
    } else {
      var n := |u| - 1;
      FeedAsWord(f, c, u[..n]);
      FedLater(f, Xor(c, WordOf(u[..n])), u[n], n);
      WordGrows(c, u);
    }
  }

  lemma WordZero(u: seq<Byte>)
    requires |u| <= 4
    ensures WordOf(u) == ZERO <==> forall i :: 0 <= i < |u| ==> u[i] == NIL
  {
    var w := WordOf(u);
    if w == ZERO {
      forall i | 0 <= i < |u|
        ensures u[i] == NIL
      {
        forall k | 0 <= k < 8
          ensures !u[i][k]
        {
          assert !w.at[8 * i + k];
        }
      }
    } else {
      assert exists j :: 0 <= j < 32 && w.at[j] != ZERO.at[j];
    }
  }

  lemma XorByteZero(a: Byte, b: Byte)
    ensures XorByte(a, b) == NIL <==> a == b
  {
    if XorByte(a, b) == NIL {
      forall j | 0 <= j < 8
        ensures a[j] == b[j]
      {
        assert !XorByte(a, b)[j];
      }
    }
  }

  /** Different windows of up to four bytes lead from the same state to different states. */
  lemma WindowDiffers(f: Word -> Word, x: Word, u: seq<Byte>, v: seq<Byte>)
    requires Linear(f) && OneToOne(f) && Shifts(f) && |u| == |v| <= 4 && u != v
    ensures Feed(f, x, u) != Feed(f, x, v)
  {
    var e := XorAll(u, v);
    FeedLinear(f, x, x, u, v);
    XorFacts(x, x, ZERO, ZERO);
    FeedAsWord(f, ZERO, e);
    XorFacts(WordOf(e), ZERO, ZERO, ZERO);
    RoundsKernel(f, WordOf(e), 8 * |e|);
    WordZero(e);
    var i :| 0 <= i < |u| && u[i] != v[i];
    XorByteZero(u[i], v[i]);
    XorFacts(Feed(f, x, u), Feed(f, x, v), ZERO, ZERO);
  }

  lemma BurstsDetectedWith(f: Word -> Word, a: seq<Byte>, b: seq<Byte>, k: nat)
    requires Linear(f) && OneToOne(f) && Shifts(f) && |a| == |b| && a != b
    requires forall i :: 0 <= i < |a| && !(k <= i < k + 4) ==> a[i] == b[i]
    ensures ChecksumWith(f, a) != ChecksumWith(f, b)
  {
    var lo := if k <= |a| then k else |a|;
    var hi := if k + 4 <= |a| then k + 4 else |a|;
    var p, u, v, s := a[..lo], a[lo..hi], b[lo..hi], a[hi..];
    assert a == p + (u + s);
    assert b == p + (v + s);
    FeedAppend(f, ONES, p, u + s);
    FeedAppend(f, ONES, p, v + s);
    var x := Feed(f, ONES, p);
    FeedAppend(f, x, u, s);
    FeedAppend(f, x, v, s);
    assert u != v;
    WindowDiffers(f, x, u, v);
    FeedInjective(f, Feed(f, x, u), Feed(f, x, v), s);
    XorCancels(Feed(f, ONES, a), Feed(f, ONES, b), ONES);
  }

  /**
   Two buffers of the same length that differ, and only inside one window of four consecutive bytes, have different
   checksums, wherever the window lies.
   */
  lemma ShortBurstsDetected(a: seq<Byte>, b: seq<Byte>, k: nat)
    requires |a| == |b| && a != b
    requires forall i :: 0 <= i < |a| && !(k <= i < k + 4) ==> a[i] == b[i]
    ensures Checksum(a) != Checksum(b)
  {
    GptRoundIs();
    BurstsDetectedWith(GptRound, a, b, k);
  }

  // ---- Four bytes is as far as it goes -------------------------------------------------------------------------

  function BytesOf(w: Word): (u: seq<Byte>)
    ensures |u| == 4 && WordOf(u) == w
  {
    var u := [w.at[..8], w.at[8..16], w.at[16..24], w.at[24..]];
    Same(WordOf(u), w);
    u
  }

  /** The first byte of a window of five changed, the other four can be chosen to make up for it. */
  lemma MakeUp(f: Word -> Word, x: Word, u: seq<Byte>) returns (v: seq<Byte>)
    requires Linear(f) && Shifts(f) && |u| == 5
    ensures |v| == 5 && v != u && Feed(f, x, u) == Feed(f, x, v)
  {
    var first := XorByte(u[0], Fill(8, true));
    assert first[0] != u[0][0];
    var c, d := Feed(f, x, [u[0]]), Feed(f, x, [first]);
    var w := Xor(Xor(c, WordOf(u[1..])), d);
    var tail := BytesOf(w);
    v := [first] + tail;
    assert u == [u[0]] + u[1..];
    FeedAppend(f, x, [u[0]], u[1..]);
    FeedAppend(f, x, [first], tail);
    FeedAsWord(f, c, u[1..]);
    FeedAsWord(f, d, tail);
    Same(Xor(d, w), Xor(c, WordOf(u[1..])));
  }

  /** Every buffer with a window of five bytes shares its checksum with one that differs inside that window. */
  lemma FiveBytesCollide(p: seq<Byte>, u: seq<Byte>, s: seq<Byte>) returns (v: seq<Byte>)
    requires |u| == 5
    ensures |v| == 5 && v != u && Checksum(p + (u + s)) == Checksum(p + (v + s))
  {
    GptRoundIs();
    v := CollideWith(GptRound, p, u, s);
  }

  lemma CollideWith(f: Word -> Word, p: seq<Byte>, u: seq<Byte>, s: seq<Byte>) returns (v: seq<Byte>)
    requires Linear(f) && Shifts(f) && |u| == 5
    ensures |v| == 5 && v != u && ChecksumWith(f, p + (u + s)) == ChecksumWith(f, p + (v + s))
  {
    var x := Feed(f, ONES, p);
    v := MakeUp(f, x, u);
    FeedAppend(f, ONES, p, u + s);
    FeedAppend(f, ONES, p, v + s);
    FeedAppend(f, x, u, s);
    FeedAppend(f, x, v, s);
  }
}
