/** Machine words as 64 bits, least significant first, with the bitwise operators of C on them. */
module BitWords {
  import opened Sequences

  type Word = w: seq<bool> | |w| == 64 witness Fill(64, false)

  const ZERO: Word := Fill(64, false)
  const ONES: Word := Fill(64, true)

  function And(a: Word, b: Word): (r: Word)
    ensures forall j :: 0 <= j < 64 ==> r[j] == (a[j] && b[j])
  {
    seq(64, j requires 0 <= j < 64 => a[j] && b[j])
  }

  function Or(a: Word, b: Word): (r: Word)
    ensures forall j :: 0 <= j < 64 ==> r[j] == (a[j] || b[j])
  {
    seq(64, j requires 0 <= j < 64 => a[j] || b[j])
  }

  function Xor(a: Word, b: Word): (r: Word)
    ensures forall j :: 0 <= j < 64 ==> r[j] == (a[j] != b[j])
  {
    seq(64, j requires 0 <= j < 64 => a[j] != b[j])
  }

  function Not(a: Word): (r: Word)
    ensures forall j :: 0 <= j < 64 ==> r[j] == !a[j]
  {
    seq(64, j requires 0 <= j < 64 => !a[j])
  }

  /** Shift left by k: zeros come in at the low end. */
  function Shl(a: Word, k: nat): (r: Word)
    requires k < 64
    ensures forall j :: 0 <= j < 64 ==> r[j] == (j >= k && a[j - k])
  {
    seq(64, j requires 0 <= j < 64 => j >= k && a[j - k])
  }

  /** Shift right by k: zeros come in at the high end. */
  function Shr(a: Word, k: nat): (r: Word)
    requires k < 64
    ensures forall j :: 0 <= j < 64 ==> r[j] == (j + k < 64 && a[j + k])
  {
    seq(64, j requires 0 <= j < 64 => j + k < 64 && a[j + k])
  }

  /** bitmask64: the low n bits. */
  function Mask(n: nat): (r: Word)
    requires n <= 64
    ensures forall j :: 0 <= j < 64 ==> r[j] == (j < n)
  {
    if n != 0 then Shr(ONES, 64 - n) else ZERO
  }
}
