/**
 The token list and write data registers of the Meson I2C controller: sixteen 4-bit tokens in two 32-bit registers and
 eight bytes in another two, filled by shifting and or-ing from the low end.
 */
module I2cRegisters {
  import opened I2cRequest

  datatype Pair = Pair(low: bv32, high: bv32)

  const CLEARED := Pair(0, 0)

  /** The bits of a byte in a register. */
  function Bits(x: Byte): bv32
  {
    (x as bv8) as bv32
  }

  function TokenAt(r: Pair, j: bv32): bv32
    requires j < 16
  {
    if j < 8 then (r.low >> (j * 4)) & 0xF else (r.high >> ((j - 8) * 4)) & 0xF
  }

  /** The token goes to the nibble given by the number of tokens loaded so far. */
  function PutToken(r: Pair, k: bv32, token: bv32): Pair
    requires k < 16
  {
    if k < 8 then Pair(r.low | (token << (k * 4)), r.high)
    else Pair(r.low, r.high | (token << ((k % 8) * 4)))
  }

  function DataAt(r: Pair, j: bv32): bv32
    requires j < 8
  {
    if j < 4 then (r.low >> (j * 8)) & 0xFF else (r.high >> ((j - 4) * 8)) & 0xFF
  }

  function PutData(r: Pair, k: bv32, data: bv32): Pair
    requires k < 8
  {
    if k < 4 then Pair(r.low | (data << (k * 8)), r.high)
    else Pair(r.low, r.high | (data << ((k - 4) * 8)))
  }

  lemma PutTokenAt(r: Pair, k: bv32, token: bv32, j: bv32)
    requires k < 16 && j < 16 && token < 16 && TokenAt(r, k) == 0
    ensures TokenAt(PutToken(r, k, token), j) == if j == k then token else TokenAt(r, j)
  {
    if k < 8 {
      if j < 8 {
        NibbleInRegister(r.low, k, token, j);
      }
    } else {
      assert k % 8 == k - 8;
      if j >= 8 {
        NibbleInRegister(r.high, k - 8, token, j - 8);
      }
    }
  }

  lemma NibbleInRegister(r: bv32, k: bv32, token: bv32, j: bv32)
    requires k < 8 && j < 8 && token < 16 && (r >> (k * 4)) & 0xF == 0
    ensures ((r | (token << (k * 4))) >> (j * 4)) & 0xF == if j == k then token else (r >> (j * 4)) & 0xF
  {
  }

  lemma PutDataAt(r: Pair, k: bv32, data: bv32, j: bv32)
    requires k < 8 && j < 8 && data < 256 && DataAt(r, k) == 0
    ensures DataAt(PutData(r, k, data), j) == if j == k then data else DataAt(r, j)
  {
    if k < 4 {
      if j < 4 {
        ByteInRegister(r.low, k, data, j);
      }
    } else if j >= 4 {
      ByteInRegister(r.high, k - 4, data, j - 4);
    }
  }

  lemma ByteInRegister(r: bv32, k: bv32, data: bv32, j: bv32)
    requires k < 4 && j < 4 && data < 256 && (r >> (k * 8)) & 0xFF == 0
    ensures ((r | (data << (k * 8))) >> (j * 8)) & 0xFF == if j == k then data else (r >> (j * 8)) & 0xFF
  {
  }

  // ---- Registers hold sequences ---------------------------------------------------------------

  /** The j-th of these bytes as bits, or nothing past their end. */
  function BitsAt(xs: seq<Byte>, j: nat): bv32
  {
    if j < |xs| then Bits(xs[j]) else 0
  }

  /** Names the places where a proof looks at the bits; everywhere else what the registers hold is enough. */
  predicate Bitwise(k: int)
  {
    true
  }

  /** The registers hold exactly these tokens, and n counts them. */
  ghost predicate TokensHeld(r: Pair, n: bv32, tokens: seq<Byte>)
  {
    && |tokens| <= 16 && (n < 16 <==> |tokens| < 16)
    && forall k: int {:trigger Bitwise(k)} :: Bitwise(k) ==>
         n <= 16 && n as nat == |tokens| && forall j: bv32 :: j < 16 ==> TokenAt(r, j) == BitsAt(tokens, j as nat)
  }

  /** The registers hold exactly these bytes, and n counts them. */
  ghost predicate DataHeld(r: Pair, n: bv32, data: seq<Byte>)
  {
    && |data| <= 8 && (n < 8 <==> |data| < 8)
    && forall k: int {:trigger Bitwise(k)} :: Bitwise(k) ==>
         n <= 8 && n as nat == |data| && forall j: bv32 :: j < 8 ==> DataAt(r, j) == BitsAt(data, j as nat)
  }

  /** The same for a count alone. */
  ghost predicate Counted(n: bv32, count: nat)
  {
    && count <= 8 && (n < 8 <==> count < 8)
    && forall k: int {:trigger Bitwise(k)} :: Bitwise(k) ==> n <= 8 && n as nat == count
  }

  lemma Counter(x: bv32)
    requires x < 16
    ensures (x + 1) as nat == x as nat + 1 && (x < 8 <==> x as nat < 8) && x as nat < 16
  {
  }

  lemma CountersCompare(x: bv32, y: bv32)
    requires x < 16 && y < 16
    ensures x < y <==> x as nat < y as nat
  {
  }

  lemma BitsSmall(x: Byte)
    ensures Bits(x) < 256 && (x < 16 ==> Bits(x) < 16)
  {
  }

  lemma TokensPush(r: Pair, n: bv32, tokens: seq<Byte>, token: Byte)
    requires TokensHeld(r, n, tokens) && n < 16 && token < 16
    ensures TokensHeld(PutToken(r, n, Bits(token)), n + 1, tokens + [token])
  {
    assert Bitwise(0);
    Counter(n);
    BitsSmall(token);
    forall j: bv32 | j < 16
      ensures TokenAt(PutToken(r, n, Bits(token)), j) == BitsAt(tokens + [token], j as nat)
    {
      PutTokenAt(r, n, Bits(token), j);
      CountersCompare(j, n);
      CountersCompare(n, j);
    }
  }

  lemma DataPush(r: Pair, n: bv32, data: seq<Byte>, x: Byte)
    requires DataHeld(r, n, data) && n < 8
    ensures DataHeld(PutData(r, n, Bits(x)), n + 1, data + [x])
  {
    assert Bitwise(0);
    Counter(n);
    BitsSmall(x);
    forall j: bv32 | j < 8
      ensures DataAt(PutData(r, n, Bits(x)), j) == BitsAt(data + [x], j as nat)
    {
      PutDataAt(r, n, Bits(x), j);
      CountersCompare(j, n);
      CountersCompare(n, j);
    }
  }

  lemma CountPush(n: bv32, count: nat)
    requires Counted(n, count) && n < 8
    ensures Counted(n + 1, count + 1)
  {
    assert Bitwise(0);
    Counter(n);
  }

  /** Registers just cleared. */
  lemma ClearedHoldsNothing()
    ensures TokensHeld(CLEARED, 0, []) && DataHeld(CLEARED, 0, []) && Counted(0, 0)
  {
  }

  // ---- The registers, bit by bit ----------------------------------------------------------------

  /** These bytes are what the two registers hold. */
  ghost predicate Unpacks(low: bv32, high: bv32, got: seq<Byte>)
  {
    |got| <= 8 && forall k: int {:trigger Bitwise(k)} :: Bitwise(k) ==> UnpacksBits(low, high, got)
  }

  /** Byte by byte: the first four from the lowest byte of the first register on, the others from the second. */
  predicate UnpacksBits(low: bv32, high: bv32, got: seq<Byte>)
  {
    && |got| <= 8
    && (|got| > 0 ==> got[0] == (low & 0xFF) as Byte) && (|got| > 1 ==> got[1] == ((low >> 8) & 0xFF) as Byte)
    && (|got| > 2 ==> got[2] == ((low >> 16) & 0xFF) as Byte) && (|got| > 3 ==> got[3] == (low >> 24) as Byte)
    && (|got| > 4 ==> got[4] == (high & 0xFF) as Byte) && (|got| > 5 ==> got[5] == ((high >> 8) & 0xFF) as Byte)
    && (|got| > 6 ==> got[6] == ((high >> 16) & 0xFF) as Byte) && (|got| > 7 ==> got[7] == (high >> 24) as Byte)
  }

  /** Four bytes in a register. */
  function Quad(b0: bv32, b1: bv32, b2: bv32, b3: bv32): bv32
  {
    b0 | (b1 << 8) | (b2 << 16) | (b3 << 24)
  }

  /** Four tokens in half a register. */
  function Nibbles(t0: bv32, t1: bv32, t2: bv32, t3: bv32): bv32
  {
    t0 | (t1 << 4) | (t2 << 8) | (t3 << 12)
  }

  lemma QuadOf(r: bv32)
    ensures r == Quad(r & 0xFF, (r >> 8) & 0xFF, (r >> 16) & 0xFF, (r >> 24) & 0xFF)
  {
  }

  lemma LowTokens(r: Pair)
    ensures r.low == Nibbles(TokenAt(r, 0), TokenAt(r, 1), TokenAt(r, 2), TokenAt(r, 3))
                     | (Nibbles(TokenAt(r, 4), TokenAt(r, 5), TokenAt(r, 6), TokenAt(r, 7)) << 16)
  {
  }

  lemma HighTokens(r: Pair)
    ensures r.high == Nibbles(TokenAt(r, 8), TokenAt(r, 9), TokenAt(r, 10), TokenAt(r, 11))
                      | (Nibbles(TokenAt(r, 12), TokenAt(r, 13), TokenAt(r, 14), TokenAt(r, 15)) << 16)
  {
  }

  /** The bytes to send are in the registers from the lowest byte of the first one on, and what is not used is zero. */
  lemma DataLayout(r: Pair, n: bv32, data: seq<Byte>)
    requires DataHeld(r, n, data)
    ensures r.low == Quad(BitsAt(data, 0), BitsAt(data, 1), BitsAt(data, 2), BitsAt(data, 3))
    ensures r.high == Quad(BitsAt(data, 4), BitsAt(data, 5), BitsAt(data, 6), BitsAt(data, 7))
  {
    assert Bitwise(0);
    QuadOf(r.low);
    QuadOf(r.high);
    assert DataAt(r, 0) == BitsAt(data, 0) && DataAt(r, 1) == BitsAt(data, 1);
    assert DataAt(r, 2) == BitsAt(data, 2) && DataAt(r, 3) == BitsAt(data, 3);
    assert DataAt(r, 4) == BitsAt(data, 4) && DataAt(r, 5) == BitsAt(data, 5);
    assert DataAt(r, 6) == BitsAt(data, 6) && DataAt(r, 7) == BitsAt(data, 7);
  }

  /** The tokens are in the registers from the lowest four bits of the first one on. */
  lemma TokensLayout(r: Pair, n: bv32, tokens: seq<Byte>)
    requires TokensHeld(r, n, tokens)
    ensures r.low == Nibbles(BitsAt(tokens, 0), BitsAt(tokens, 1), BitsAt(tokens, 2), BitsAt(tokens, 3))
                     | (Nibbles(BitsAt(tokens, 4), BitsAt(tokens, 5), BitsAt(tokens, 6), BitsAt(tokens, 7)) << 16)
    ensures r.high == Nibbles(BitsAt(tokens, 8), BitsAt(tokens, 9), BitsAt(tokens, 10), BitsAt(tokens, 11))
                      | (Nibbles(BitsAt(tokens, 12), BitsAt(tokens, 13), BitsAt(tokens, 14), BitsAt(tokens, 15)) << 16)
  {
    LowTokens(r);
    HighTokens(r);
    assert Bitwise(0);
    assert TokenAt(r, 0) == BitsAt(tokens, 0) && TokenAt(r, 1) == BitsAt(tokens, 1);
    assert TokenAt(r, 2) == BitsAt(tokens, 2) && TokenAt(r, 3) == BitsAt(tokens, 3);
    assert TokenAt(r, 4) == BitsAt(tokens, 4) && TokenAt(r, 5) == BitsAt(tokens, 5);
    assert TokenAt(r, 6) == BitsAt(tokens, 6) && TokenAt(r, 7) == BitsAt(tokens, 7);
    assert TokenAt(r, 8) == BitsAt(tokens, 8) && TokenAt(r, 9) == BitsAt(tokens, 9);
    assert TokenAt(r, 10) == BitsAt(tokens, 10) && TokenAt(r, 11) == BitsAt(tokens, 11);
    assert TokenAt(r, 12) == BitsAt(tokens, 12) && TokenAt(r, 13) == BitsAt(tokens, 13);
    assert TokenAt(r, 14) == BitsAt(tokens, 14) && TokenAt(r, 15) == BitsAt(tokens, 15);
  }
}
