/**
 What the controller finds in its registers once a batch is loaded, bit by bit, and the words one request becomes.
 */
module I2cLayout {
  import opened I2cDriver
  import opened I2cRegisters
  import opened I2cRequest

  /** The registers a batch is loaded into, bit by bit. */
  lemma LoadedLayout(r: Batch, b: seq<Emit>)
    requires Loaded(r, b)
    ensures var t, d := Tokens(b), Written(b);
            && r.tk.low == Nibbles(BitsAt(t, 0), BitsAt(t, 1), BitsAt(t, 2), BitsAt(t, 3))
                           | (Nibbles(BitsAt(t, 4), BitsAt(t, 5), BitsAt(t, 6), BitsAt(t, 7)) << 16)
            && r.tk.high == Nibbles(BitsAt(t, 8), BitsAt(t, 9), BitsAt(t, 10), BitsAt(t, 11))
                            | (Nibbles(BitsAt(t, 12), BitsAt(t, 13), BitsAt(t, 14), BitsAt(t, 15)) << 16)
            && r.wd.low == Quad(BitsAt(d, 0), BitsAt(d, 1), BitsAt(d, 2), BitsAt(d, 3))
            && r.wd.high == Quad(BitsAt(d, 4), BitsAt(d, 5), BitsAt(d, 6), BitsAt(d, 7))
  {
    BatchLimits(r, b);
    TokensLayout(r.tk, r.tkOffset, Tokens(b));
    DataLayout(r.wd, r.wdataOffset, Written(b));
  }

  // ---- The numbers on either side -----------------------------------------------------------------

  /**
   What the bytes of a request become, in the numbers both sides use: 1, 4 and 0 are START, STOP and END, which the
   controller knows as 1, 6 and 0; 2 and 3, a length and that many bytes are a write and a read, which it knows as 2 and
   3, followed by a 4 for every byte but the last one read, which is a 5.
   */
  lemma WireCodes(data: seq<Byte>, tail: seq<Byte>, w: bool)
    requires |data| < 256 && Legal(Cursor(tail, 0, w)) && Readable(Cursor(tail, 0, w))
    ensures var c := Cursor([1] + tail, 0, w);
            Readable(c) && OneShot(c) == [Plain(1)] + OneShot(Cursor(tail, 0, w))
    ensures var c := Cursor([4] + tail, 0, w);
            Readable(c) && OneShot(c) == [Plain(6)] + OneShot(Cursor(tail, 0, w))
    ensures var c := Cursor([0] + tail, 0, w);
            Readable(c) && OneShot(c) == [Plain(0)] + OneShot(Cursor(tail, 0, w))
    ensures var c := Cursor([if w then 2 else 3, |data| as Byte] + data + tail, 0, w);
            && Readable(c)
            && OneShot(c) == [Plain(if w then 2 else 3)] + (if w then Sends(data) else Receives(|data|))
                             + OneShot(Cursor(tail, 0, w))
    ensures forall x: Byte :: TokenOf(Plain(x)) == x && TokenOf(Send(x)) == 4
    ensures TokenOf(Receive(false)) == 4 && TokenOf(Receive(true)) == 5
  {
    SingleOp(1, tail, w);
    SingleOp(4, tail, w);
    SingleOp(0, tail, w);
    BufferedOp(if w then 2 else 3, data, tail, w);
  }

  /** A request that sends the byte 0x50, and the words it is loaded as. */
  lemma InstanceLoads(r: Batch)
    requires Readable(Cursor([1, 2, 1, 0x50, 4], 0, false)) && Loaded(r, OneShot(Cursor([1, 2, 1, 0x50, 4], 0, false)))
    ensures r.tk == Pair(0x0000_6421, 0) && r.wd == Pair(0x0000_0050, 0)
  {
    InstanceEmits();
    InstanceHolds();
    LoadedLayout(r, OneShot(Cursor([1, 2, 1, 0x50, 4], 0, false)));
    InstanceWords();
  }

  lemma InstanceWords()
    ensures var t: seq<Byte> := [1, 2, 4, 6];
            && Nibbles(BitsAt(t, 0), BitsAt(t, 1), BitsAt(t, 2), BitsAt(t, 3)) == 0x6421
            && Nibbles(BitsAt(t, 4), BitsAt(t, 5), BitsAt(t, 6), BitsAt(t, 7)) == 0
            && Nibbles(BitsAt(t, 8), BitsAt(t, 9), BitsAt(t, 10), BitsAt(t, 11)) == 0
            && Nibbles(BitsAt(t, 12), BitsAt(t, 13), BitsAt(t, 14), BitsAt(t, 15)) == 0
    ensures var d: seq<Byte> := [0x50];
            && Quad(BitsAt(d, 0), BitsAt(d, 1), BitsAt(d, 2), BitsAt(d, 3)) == 0x50
            && Quad(BitsAt(d, 4), BitsAt(d, 5), BitsAt(d, 6), BitsAt(d, 7)) == 0
  {
    assert Bits(1) == 1 && Bits(2) == 2 && Bits(4) == 4 && Bits(6) == 6 && Bits(0x50) == 0x50;
  }

  lemma InstanceEmits()
    ensures Readable(Cursor([1, 2, 1, 0x50, 4], 0, false))
    ensures OneShot(Cursor([1, 2, 1, 0x50, 4], 0, false)) == [Plain(1), Plain(2), Send(0x50), Plain(6)]
  {
    var stop: seq<Byte> := [4] + [];
    WireCodes([], [], true);
    BufferedOp(2, [0x50], stop, false);
    assert Sends([0x50]) == [Send(0x50)];
    var rest := [2, 1] + [0x50] + stop;
    SingleOp(1, rest, false);
    assert [1] + rest == [1, 2, 1, 0x50, 4];
  }

  lemma InstanceHolds()
    ensures var b := [Plain(1), Plain(2), Send(0x50), Plain(6)];
            Tokens(b) == [1, 2, 4, 6] && Written(b) == [0x50]
  {
    var b := [Plain(1), Plain(2), Send(0x50), Plain(6)];
    assert b[..3] == [Plain(1), Plain(2), Send(0x50)] && b[..3][..2] == [Plain(1), Plain(2)];
    assert Written([Plain(1), Plain(2)]) == [];
  }
}
