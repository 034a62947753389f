/**
 What the checksum of module Crc32 means: it is the remainder of the message, read as a polynomial over the field of two
 elements, on division by the polynomial of the standard. A polynomial is the set of the exponents of its terms.
 */
module CrcPolynomial {
  import opened Crc32
  import opened Sequences

  type Poly = set<nat>

  /** x^32 + x^26 + x^23 + x^22 + x^16 + x^12 + x^11 + x^10 + x^8 + x^7 + x^5 + x^4 + x^2 + x + 1 */
  const GENERATOR: Poly := {32, 26, 23, 22, 16, 12, 11, 10, 8, 7, 5, 4, 2, 1, 0}

  /** Terms that occur twice cancel. */
  function Sum(a: Poly, b: Poly): (r: Poly)
    ensures forall e :: e in r <==> (e in a) != (e in b)
  {
    (a - b) + (b - a)
  }

  /** The product with x^n. */
  function Shift(a: Poly, n: nat): (r: Poly)
    ensures forall e :: e in r <==> e >= n && e - n in a
  {
    set e | e in a :: e + n
  }

  /** Of these coefficients, that of the highest exponent first, the one of x^e. */
  predicate Coefficient(bits: seq<bool>, e: nat)
  {
    e < |bits| && bits[|bits| - 1 - e]
  }

  function PolyOf(bits: seq<bool>): (r: Poly)
    ensures forall e: nat :: e in r <==> Coefficient(bits, e)
  {
    set e: nat | e < |bits| && Coefficient(bits, e)
  }

  /** The product of the polynomial with these coefficients and p. */
  function Times(bits: seq<bool>, p: Poly): Poly
  {
    if bits == [] then {}
    else
      var n := |bits| - 1;
      Sum(Shift(Times(bits[..n], p), 1), if bits[n] then p else {})
  }

  /** The rest r is of lower degree than the generator, and differs from p by a multiple of it. */
  ghost predicate IsRemainder(r: Poly, p: Poly)
  {
    (forall e :: e in r ==> e < 32) && exists q :: Sum(p, r) == Times(q, GENERATOR)
  }

  // ---- Multiples of the generator ---------------------------------------------------------------

  lemma TimesPush(bits: seq<bool>, bit: bool, p: Poly)
    ensures Times(bits + [bit], p) == Sum(Shift(Times(bits, p), 1), if bit then p else {})
  {
    assert (bits + [bit])[..|bits|] == bits;
  }

  lemma Regroup(a: Poly, t: Poly, g: Poly, n: nat)
    ensures Sum(Shift(Sum(Shift(a, n), t), 1), g) == Sum(Shift(a, n + 1), Sum(Shift(t, 1), g))
  {
  }

  lemma {:induction false} TimesAppend(a: seq<bool>, b: seq<bool>, p: Poly)
    ensures Times(a + b, p) == Sum(Shift(Times(a, p), |b|), Times(b, p))
  {
    if b == [] {
      assert a + b == a;
    } else {
      var n := |b| - 1;
      TimesAppend(a, b[..n], p);
      assert a + b == (a + b[..n]) + [b[n]];
      TimesPush(a + b[..n], b[n], p);
      Regroup(Times(a, p), Times(b[..n], p), if b[n] then p else {}, n);
    }
  }

  lemma {:induction false} TimesZeros(n: nat, p: Poly)
    ensures Times(Fill(n, false), p) == {}
  {
    if n > 0 {
      TimesZeros(n - 1, p);
      assert Fill(n, false)[..n - 1] == Fill(n - 1, false);
    }
  }

  function SumBits(a: seq<bool>, b: seq<bool>): (r: seq<bool>)
    requires |a| == |b|
    ensures |r| == |a| && forall i :: 0 <= i < |a| ==> r[i] == (a[i] != b[i])
  {
    seq(|a|, i requires 0 <= i < |a| => a[i] != b[i])
  }

  lemma {:induction false} TimesSum(a: seq<bool>, b: seq<bool>, p: Poly)
    requires |a| == |b|
    ensures Times(SumBits(a, b), p) == Sum(Times(a, p), Times(b, p))
  {
    if a != [] {
      var n := |a| - 1;
      TimesSum(a[..n], b[..n], p);
      assert SumBits(a, b)[..n] == SumBits(a[..n], b[..n]);
    }
  }

  /** Leading zeros change nothing. */
  lemma Padded(q: seq<bool>, n: nat, p: Poly)
    ensures Times(Fill(n, false) + q, p) == Times(q, p)
  {
    TimesAppend(Fill(n, false), q, p);
    TimesZeros(n, p);
  }

  lemma LargeStays(a: Poly, e: nat, g: Poly)
    requires e in a && e >= 32 && g <= GENERATOR
    ensures e + 1 in Sum(Shift(a, 1), g)
  {
    assert e + 1 in Shift(a, 1) && e + 1 !in GENERATOR;
  }

  /** A multiple of the generator is zero or of degree 32 at least. */
  lemma {:induction false} MultipleIsLarge(q: seq<bool>)
    ensures Times(q, GENERATOR) != {} ==> exists e :: e in Times(q, GENERATOR) && e >= 32
  {
    if q != [] {
      var n := |q| - 1;
      var init := Times(q[..n], GENERATOR);
      MultipleIsLarge(q[..n]);
      if init != {} {
        var e :| e in init && e >= 32;
        LargeStays(init, e, if q[n] then GENERATOR else {});
      } else if q[n] {
        assert 32 in Times(q, GENERATOR);
      }
    }
  }

  lemma MultiplesAdd(q: seq<bool>, q': seq<bool>, p: Poly) returns (d: seq<bool>)
    ensures Sum(Times(q, p), Times(q', p)) == Times(d, p)
  {
    var a, b := Fill(|q'|, false) + q, Fill(|q|, false) + q';
    Padded(q, |q'|, p);
    Padded(q', |q|, p);
    TimesSum(a, b, p);
    d := SumBits(a, b);
  }

  lemma Difference(p: Poly, r: Poly, r': Poly)
    ensures Sum(Sum(p, r), Sum(p, r')) == Sum(r, r')
    ensures Sum(r, r') == {} ==> r == r'
  {
    if Sum(r, r') == {} {
      assert forall e :: e in Sum(r, r') <==> (e in r) != (e in r');
      assert forall e :: e in r <==> e in r';
    }
  }

  /** There is only one remainder. */
  lemma RemainderUnique(r: Poly, r': Poly, p: Poly)
    requires IsRemainder(r, p) && IsRemainder(r', p)
    ensures r == r'
  {
    var q :| Sum(p, r) == Times(q, GENERATOR);
    var q' :| Sum(p, r') == Times(q', GENERATOR);
    var d := MultiplesAdd(q, q', GENERATOR);
    Difference(p, r, r');
    MultipleIsLarge(d);
  }

  // ---- The register -----------------------------------------------------------------------------

  /** The register, which is reflected: its lowest bit is the coefficient of x^31. */
  function Register(w: Word): Poly
  {
    PolyOf(w.at)
  }

  /** The reflected constant is the generator without its highest term. */
  lemma GeneratorIs(e: nat)
    ensures e in GENERATOR <==> e == 32 || Coefficient(POLYNOMIAL.at, e)
  {
  }

  lemma StepAt(g: Word, w: Word, e: nat)
    requires e < 32
    ensures Coefficient(BitStep(g, w).at, e) <==>
            (e > 0 && Coefficient(w.at, e - 1)) != (w.at[0] && Coefficient(g.at, e))
  {
    assert Bitwise(0, w);
    assert BitAfter(g, w, BitStep(g, w), 31 - e);
  }

  /** A round multiplies by x, and takes the generator off if that leaves the register. */
  lemma RoundIs(w: Word)
    ensures Register(GptRound(w)) == Sum(Shift(Register(w), 1), if w.at[0] then GENERATOR else {})
  {
    var l, r := Register(GptRound(w)), Sum(Shift(Register(w), 1), if w.at[0] then GENERATOR else {});
    forall e: nat
      ensures e in l <==> e in r
    {
      RoundAt(w, e);
    }
  }

  lemma RoundAt(w: Word, e: nat)
    ensures Coefficient(GptRound(w).at, e) <==>
            (e > 0 && Coefficient(w.at, e - 1)) != (w.at[0] && e in GENERATOR)
  {
    GeneratorIs(e);
    if e < 32 {
      StepAt(POLYNOMIAL, w, e);
    }
  }

  /** r is x^n times p less a multiple of the generator. */
  predicate Reached(p: Poly, n: nat, q: seq<bool>, r: Poly)
  {
    r == Sum(Shift(p, n), Times(q, GENERATOR))
  }

  lemma {:induction false} RoundsAre(w: Word, n: nat) returns (q: seq<bool>)
    ensures Reached(Register(w), n, q, Register(Rounds(GptRound, w, n))) && |q| == n
  {
    if n == 0 {
      q := [];
      ReachedAtOnce(Register(w));
    } else {
      var v := Rounds(GptRound, w, n - 1);
      q := RoundsAre(w, n - 1);
      RoundMore(Register(w), v, q, n - 1);
      q := q + [v.at[0]];
    }
  }

  lemma ReachedAtOnce(p: Poly)
    ensures Reached(p, 0, [], p)
  {
  }

  lemma RoundMore(p: Poly, v: Word, q: seq<bool>, n: nat)
    requires Reached(p, n, q, Register(v))
    ensures Reached(p, n + 1, q + [v.at[0]], Register(GptRound(v)))
  {
    RoundIs(v);
    TimesPush(q, v.at[0], GENERATOR);
    Regroup(p, Times(q, GENERATOR), if v.at[0] then GENERATOR else {}, n);
  }

  lemma RegisterXor(a: Word, b: Word)
    ensures Register(Xor(a, b)) == Sum(Register(a), Register(b))
  {
  }

  lemma ByteIn(b: Byte)
    ensures Shift(Register(Extend(b)), 8) == Shift(PolyOf(b), 32)
  {
  }

  // ---- The checksum -----------------------------------------------------------------------------

  /** The message as it is sent: byte by byte, of each the lowest bit first. */
  function MessageBits(buffer: seq<Byte>): (r: seq<bool>)
    ensures |r| == 8 * |buffer|
  {
    if buffer == [] then [] else MessageBits(buffer[..|buffer| - 1]) + buffer[|buffer| - 1]
  }

  /** What a register full of ones stands for, n bits before the end of the message: all 32 terms from x^n on. */
  function Preset(n: nat): Poly
  {
    Shift(PolyOf(Fill(32, true)), n)
  }

  /** What is divided: the message, with 32 zeros behind it, and its first 32 bits inverted. */
  function Dividend(buffer: seq<Byte>): Poly
  {
    Sum(Shift(PolyOf(MessageBits(buffer)), 32), Preset(8 * |buffer|))
  }

  lemma PolyAppend(a: seq<bool>, b: seq<bool>)
    ensures PolyOf(a + b) == Sum(Shift(PolyOf(a), |b|), PolyOf(b))
  {
  }

  lemma DividendPush(buffer: seq<Byte>, b: Byte)
    ensures Dividend(buffer + [b]) == Sum(Shift(Dividend(buffer), 8), Shift(PolyOf(b), 32))
  {
    assert (buffer + [b])[..|buffer|] == buffer;
    var m := MessageBits(buffer);
    PolyAppend(m, b);
    assert Preset(8 * |buffer| + 8) == Shift(Preset(8 * |buffer|), 8);
  }

  lemma ByteCancels(p: Poly, r: Poly, b: Poly, x: Poly, t: Poly, u: Poly)
    requires Sum(p, r) == t && Shift(x, 8) == Shift(b, 32)
    ensures Sum(Sum(Shift(p, 8), Shift(b, 32)), Sum(Shift(Sum(r, x), 8), u)) == Sum(Shift(t, 8), u)
  {
  }

  /** One more byte. */
  lemma ByteIsRemainder(init: seq<Byte>, was: Word, b: Byte, q: seq<bool>) returns (q': seq<bool>)
    requires Sum(Dividend(init), Register(was)) == Times(q, GENERATOR)
    ensures Sum(Dividend(init + [b]), Register(ByteStep(GptRound, was, b))) == Times(q', GENERATOR)
  {
    var q8 := RoundsAre(Xor(was, Extend(b)), 8);
    RegisterXor(was, Extend(b));
    ByteIn(b);
    DividendPush(init, b);
    TimesAppend(q, q8, GENERATOR);
    ByteCancels(Dividend(init), Register(was), PolyOf(b), Register(Extend(b)), Times(q, GENERATOR),
                Times(q8, GENERATOR));
    q' := q + q8;
  }

  lemma NothingFed()
    ensures Sum(Dividend([]), Register(ONES)) == {}
  {
    assert Preset(0) == PolyOf(Fill(32, true));
  }

  lemma {:induction false} FeedIsRemainder(buffer: seq<Byte>) returns (q: seq<bool>)
    ensures Sum(Dividend(buffer), Register(Feed(GptRound, ONES, buffer))) == Times(q, GENERATOR)
  {
    if buffer == [] {
      q := [];
      NothingFed();
    } else {
      var n := |buffer| - 1;
      q := FeedIsRemainder(buffer[..n]);
      q := ByteIsRemainder(buffer[..n], Feed(GptRound, ONES, buffer[..n]), buffer[n], q);
      assert buffer == buffer[..n] + [buffer[n]];
    }
  }

  /**
   The checksum, its final inversion undone, is the remainder of the message, the initial inversion applied to it, on
   division by the generator.
   */
  lemma ChecksumIsRemainder(buffer: seq<Byte>)
    ensures IsRemainder(Register(Xor(Checksum(buffer), ONES)), Dividend(buffer))
  {
    var f := Feed(GptRound, ONES, buffer);
    Same(Xor(Xor(f, ONES), ONES), f);
    var q := FeedIsRemainder(buffer);
  }

  /** gpt_calc_crc32. */
  method GptCalcCrc32(buffer: seq<Byte>) returns (r: Word)
    ensures IsRemainder(Register(Xor(r, ONES)), Dividend(buffer)) && r == Checksum(buffer)
  {
    var crc: Word := ONES;
    for i := 0 to |buffer|
      invariant crc == Feed(GptRound, ONES, buffer[..i])
    {
      ghost var start := Xor(crc, Extend(buffer[i]));
      crc := Xor(crc, Extend(buffer[i]));
      for j := 0 to 8
        invariant crc == Rounds(GptRound, start, j)
      {
        var mask := MaskOf(crc);
        crc := Xor(HalfOf(crc), And(POLYNOMIAL, mask));
      }
      assert buffer[..i + 1][..i] == buffer[..i];
    }
    assert buffer[..|buffer|] == buffer;
    r := Xor(crc, ONES);
    ChecksumIsRemainder(buffer);
  }
}
