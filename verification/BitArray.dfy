/** util/bitarray.c: regions of a bit array changed and compared a word at a time. */
module BitArray {
  import opened BitWords

  datatype Action = Zero | Fill | Swap

  /** What an action does to one bit. */
  function Act(action: Action, b: bool): bool
  {
    match action
    case Zero => false
    case Fill => true
    case Swap => !b
  }

  /** The bits of an array of words. */
  function Flat(words: seq<Word>): (r: seq<bool>)
    ensures |r| == 64 * |words| && forall i :: 0 <= i < |r| ==> r[i] == words[i / 64][i % 64]
  {
    seq(64 * |words|, i requires 0 <= i < 64 * |words| => words[i / 64][i % 64])
  }

  /** Bits with the action done to those from start to end, and to no others. */
  function Region(bits: seq<bool>, start: nat, end: nat, action: Action): (r: seq<bool>)
    ensures |r| == |bits|
    ensures forall i :: 0 <= i < |bits| ==> r[i] == if start <= i < end then Act(action, bits[i]) else bits[i]
  {
    seq(|bits|, i requires 0 <= i < |bits| => if start <= i < end then Act(action, bits[i]) else bits[i])
  }

  /** The same for one word of an array, the k-th. */
  function RegionWord(w: Word, k: nat, start: nat, end: nat, action: Action): (r: Word)
    ensures forall j :: 0 <= j < 64 ==> r[j] == if start <= 64 * k + j < end then Act(action, w[j]) else w[j]
  {
    seq(64, j requires 0 <= j < 64 => if start <= 64 * k + j < end then Act(action, w[j]) else w[j])
  }

  /** The action done to the bits of a mask. */
  function Masked(w: Word, mask: Word, action: Action): (r: Word)
    ensures forall j :: 0 <= j < 64 ==> r[j] == if mask[j] then Act(action, w[j]) else w[j]
  {
    match action
    case Zero => And(w, Not(mask))
    case Fill => Or(w, mask)
    case Swap => Xor(w, mask)
  }

  /** Word by word is bit by bit. */
  lemma WordsMakeRegion(words: seq<Word>, words': seq<Word>, start: nat, end: nat, action: Action)
    requires |words'| == |words|
    requires forall k :: 0 <= k < |words| ==> words'[k] == RegionWord(words[k], k, start, end, action)
    ensures Flat(words') == Region(Flat(words), start, end, action)
  {
    forall i | 0 <= i < 64 * |words|
      ensures Flat(words')[i] == Region(Flat(words), start, end, action)[i]
    {
      var k, j := i / 64, i % 64;
      assert words'[k] == RegionWord(words[k], k, start, end, action);
    }
  }

  /** Toggling a region twice changes nothing. */
  lemma ToggleTwice(bits: seq<bool>, start: nat, end: nat)
    ensures Region(Region(bits, start, end, Swap), start, end, Swap) == bits
  {
  }

  /** Clearing undoes setting where nothing was set before, and the other way round. */
  lemma ClearUndoesSet(bits: seq<bool>, start: nat, end: nat)
    requires start <= end <= |bits|
    ensures Region(Region(bits, start, end, Fill), start, end, Zero) == bits <==>
              forall i :: start <= i < end ==> !bits[i]
    ensures Region(Region(bits, start, end, Zero), start, end, Fill) == bits <==>
              forall i :: start <= i < end ==> bits[i]
  {
    var a, b := Region(Region(bits, start, end, Fill), start, end, Zero),
      Region(Region(bits, start, end, Zero), start, end, Fill);
    assert forall i :: start <= i < end ==> a[i] == false && b[i] == true;
  }

  /** Within one word. */
  lemma OneWord(w: Word, k: nat, start: nat, len: nat, action: Action)
    requires 0 < len && 64 * k <= start && start + len <= 64 * k + 64
    ensures Masked(w, Shl(Mask(len), start % 64), action) == RegionWord(w, k, start, start + len, action)
  {
    var r, s := Masked(w, Shl(Mask(len), start % 64), action), RegionWord(w, k, start, start + len, action);
    assert forall j :: 0 <= j < 64 ==> r[j] == s[j];
  }

  /** The first word of several: everything from the start on. */
  lemma FirstWord(w: Word, k: nat, start: nat, end: nat, action: Action)
    requires start / 64 == k && end > 64 * k + 64
    ensures Masked(w, Not(Mask(start % 64)), action) == RegionWord(w, k, start, end, action)
    ensures And(w, Mask(start % 64)) == Masked(w, Not(Mask(start % 64)), Zero)
  {
    var r, s := Masked(w, Not(Mask(start % 64)), action), RegionWord(w, k, start, end, action);
    assert forall j :: 0 <= j < 64 ==> r[j] == s[j];
    assert forall j :: 0 <= j < 64 ==> And(w, Mask(start % 64))[j] == Masked(w, Not(Mask(start % 64)), Zero)[j];
  }

  /** The last word of several: everything up to the end. */
  lemma LastWord(w: Word, k: nat, start: nat, end: nat, action: Action)
    requires end > 0 && (end - 1) / 64 == k && start < 64 * k
    ensures Masked(w, Mask((end - 1) % 64 + 1), action) == RegionWord(w, k, start, end, action)
  {
    var r, s := Masked(w, Mask((end - 1) % 64 + 1), action), RegionWord(w, k, start, end, action);
    assert forall j :: 0 <= j < 64 ==> r[j] == s[j];
  }

  /** A word in between: all of it. */
  lemma WholeWord(w: Word, k: nat, start: nat, end: nat, action: Action)
    requires start <= 64 * k && 64 * k + 64 <= end
    ensures RegionWord(w, k, start, end, action)
              == match action case Zero => ZERO case Fill => ONES case Swap => Xor(w, ONES)
  {
    var r := RegionWord(w, k, start, end, action);
    assert forall j :: 0 <= j < 64 ==> r[j] == Act(action, w[j]);
  }

  lemma OtherWord(w: Word, k: nat, start: nat, end: nat, action: Action)
    requires 64 * k + 64 <= start || end <= 64 * k
    ensures RegionWord(w, k, start, end, action) == w
  {
  }

  /** Bits extracted from two words agree exactly when the words do at the two offsets. */
  lemma ExtractEqual(w1: Word, o1: nat, w2: Word, o2: nat, n: nat)
    requires n <= 64 && o1 + n <= 64 && o2 + n <= 64 && o1 < 64 && o2 < 64
    ensures Shr(And(w1, Shl(Mask(n), o1)), o1) == Shr(And(w2, Shl(Mask(n), o2)), o2) <==>
              w1[o1..o1 + n] == w2[o2..o2 + n]
  {
    var x, y := Shr(And(w1, Shl(Mask(n), o1)), o1), Shr(And(w2, Shl(Mask(n), o2)), o2);
    var a, b := w1[o1..o1 + n], w2[o2..o2 + n];
    forall j | 0 <= j < 64
      ensures x[j] == (j < n && a[j]) && y[j] == (j < n && b[j])
    {
    }
    if x == y {
      assert forall j :: 0 <= j < n ==> a[j] == x[j] && b[j] == y[j];
    } else {
      assert exists j :: 0 <= j < 64 && x[j] != y[j];
    }
  }

  class Bits {
    const words: array<Word>

    constructor (n: nat)
      ensures fresh(words) && words.Length == n
    {
      words := new Word[n];
    }

    function NumBits(): nat
      reads this
    {
      64 * words.Length
    }

    ghost function Abs(): seq<bool>
      reads this, words
    {
      Flat(words[..])
    }

    /** bitarray_get_bit. */
    method GetBit(index: nat) returns (b: bool)
      requires index < NumBits()
      ensures b == Abs()[index]
    {
      var word, offset := index / 64, index % 64;
      b := And(Shr(words[word], offset), Mask(1))[0];
    }

    /** The words strictly between the first and the last. */
    method WholeWords(first: nat, last: nat, action: Action, ghost start: nat, ghost end: nat)
      requires first < last < words.Length && start / 64 == first && last * 64 < end
      modifies words
      ensures forall k :: 0 <= k < words.Length ==>
        words[k] == if first < k < last then RegionWord(old(words[k]), k, start, end, action) else old(words[k])
    {
      for i := first + 1 to last
        invariant forall k :: 0 <= k < words.Length ==>
          words[k] == if first < k < i then RegionWord(old(words[k]), k, start, end, action) else old(words[k])
      {
        WholeWord(words[i], i, start, end, action);
        match action {
          case Zero => words[i] := ZERO;
          case Fill => words[i] := ONES;
          case Swap => words[i] := Xor(words[i], ONES);
        }
      }
    }

    /** A region within one word. */
    method SetWithin(start: nat, len: nat, action: Action)
      requires 0 < len && start + len <= NumBits() && start / 64 == (start + len - 1) / 64
      modifies words
      ensures forall k :: 0 <= k < words.Length ==> words[k] == RegionWord(old(words[k]), k, start, start + len, action)
    {
      var first, foffset := start / 64, start % 64;
      OneWord(words[first], first, start, len, action);
      forall k | 0 <= k < words.Length && k != first
        ensures RegionWord(words[k], k, start, start + len, action) == words[k]
      {
        OtherWord(words[k], k, start, start + len, action);
      }
      words[first] := Masked(words[first], Shl(Mask(len), foffset), action);
    }

    /** The first word of a region over several. */
    method SetFirst(start: nat, action: Action, ghost end: nat)
      requires start / 64 < words.Length && end > 64 * (start / 64) + 64
      modifies words
      ensures forall k :: 0 <= k < words.Length ==>
        words[k] == if k == start / 64 then RegionWord(old(words[k]), k, start, end, action) else old(words[k])
    {
      var first, foffset := start / 64, start % 64;
      FirstWord(words[first], first, start, end, action);
      match action {
        case Zero => words[first] := And(words[first], Mask(foffset));
        case Fill => words[first] := Or(words[first], Not(Mask(foffset)));
        case Swap => words[first] := Xor(words[first], Not(Mask(foffset)));
      }
    }

    /** The last word of a region over several. */
    method SetLast(end: nat, action: Action, ghost start: nat)
      requires 0 < end <= NumBits() && start / 64 < (end - 1) / 64
      modifies words
      ensures forall k :: 0 <= k < words.Length ==>
        words[k] == if k == (end - 1) / 64 then RegionWord(old(words[k]), k, start, end, action) else old(words[k])
    {
      var last, loffset := (end - 1) / 64, (end - 1) % 64;
      LastWord(words[last], last, start, end, action);
      words[last] := Masked(words[last], Mask(loffset + 1), action);
    }

    /** A region over several words. */
    method SetAcross(start: nat, len: nat, action: Action)
      requires 0 < len && start + len <= NumBits() && start / 64 < (start + len - 1) / 64
      modifies words
      ensures forall k :: 0 <= k < words.Length ==> words[k] == RegionWord(old(words[k]), k, start, start + len, action)
    {
      var first, end := start / 64, start + len;
      var last := (end - 1) / 64;
      SetFirst(start, action, end);
      WholeWords(first, last, action, start, end);
      SetLast(end, action, start);
      forall k | 0 <= k < words.Length && (k < first || last < k)
        ensures RegionWord(old(words[k]), k, start, end, action) == words[k]
      {
        OtherWord(words[k], k, start, end, action);
      }
    }

    /** _set_region: exactly the bits of the region change, across any number of words. */
    method SetRegion(start: nat, len: nat, action: Action)
      requires start + len <= NumBits()
      modifies words
      ensures Abs() == Region(old(Abs()), start, start + len, action)
    {
      ghost var before := words[..];
      if len == 0 {
        return;
      }
      if start / 64 == (start + len - 1) / 64 {
        SetWithin(start, len, action);
      } else {
        SetAcross(start, len, action);
      }
      WordsMakeRegion(before, words[..], start, start + len, action);
    }

    /** Compare n bits that lie within one word of each array. */
    method CmpWord(s1: nat, other: Bits, s2: nat, n: nat) returns (same: bool)
      requires s1 + n <= NumBits() && s2 + n <= other.NumBits() && 0 < n <= 64 - s1 % 64 && n <= 64 - s2 % 64
      ensures same <==> Abs()[s1..s1 + n] == other.Abs()[s2..s2 + n]
    {
      var w1, o1, w2, o2 := s1 / 64, s1 % 64, s2 / 64, s2 % 64;
      var bits1 := Shr(And(words[w1], Shl(Mask(n), o1)), o1);
      var bits2 := Shr(And(other.words[w2], Shl(Mask(n), o2)), o2);
      ExtractEqual(words[w1], o1, other.words[w2], o2, n);
      SliceOfWord(words[..], s1, n);
      SliceOfWord(other.words[..], s2, n);
      same := bits1 == bits2;
    }

    /** bitarray_cmp_region: true exactly when the two regions agree bit for bit, however they are aligned. */
    method CmpRegion(start1: nat, other: Bits, start2: nat, len: nat) returns (same: bool)
      requires start1 + len <= NumBits() && start2 + len <= other.NumBits()
      ensures same <==> Abs()[start1..start1 + len] == other.Abs()[start2..start2 + len]
    {
      ghost var a, b := Abs(), other.Abs();
      var s1, s2, rest := start1, start2, len;
      while rest > 0
        invariant 0 <= rest <= len && s1 == start1 + (len - rest) && s2 == start2 + (len - rest)
        invariant a[start1..s1] == b[start2..s2]
        decreases rest
      {
        var n := rest;
        if n > 64 - s1 % 64 {
          n := 64 - s1 % 64;
        }
        if n > 64 - s2 % 64 {
          n := 64 - s2 % 64;
        }
        var equal := CmpWord(s1, other, s2, n);
        SlicesAgree(a, start1, s1, b, start2, s2, n, len);
        if !equal {
          return false;
        }
        rest, s1, s2 := rest - n, s1 + n, s2 + n;
      }
      return true;
    }
  }

  /** Regions that agree so far agree a little longer exactly when the next bits do. */
  lemma SlicesAgree(a: seq<bool>, start1: nat, s1: nat, b: seq<bool>, start2: nat, s2: nat, n: nat, len: nat)
    requires start1 <= s1 && start2 <= s2 && s1 - start1 == s2 - start2 && s1 - start1 + n <= len
    requires start1 + len <= |a| && start2 + len <= |b| && a[start1..s1] == b[start2..s2]
    ensures a[s1..s1 + n] == b[s2..s2 + n] ==> a[start1..s1 + n] == b[start2..s2 + n]
    ensures a[s1..s1 + n] != b[s2..s2 + n] ==> a[start1..start1 + len] != b[start2..start2 + len]
  {
    SliceParts(a, start1, s1, n, len);
    SliceParts(b, start2, s2, n, len);
  }

  lemma SliceParts(a: seq<bool>, start: nat, s: nat, n: nat, len: nat)
    requires start <= s && s - start + n <= len && start + len <= |a|
    ensures a[start..s + n] == a[start..s] + a[s..s + n]
    ensures a[s..s + n] == a[start..start + len][s - start..s - start + n]
  {
    var b, d := a[start..start + len], s - start;
    var x, y := a[s..s + n], b[d..d + n];
    forall i | 0 <= i < n
      ensures x[i] == y[i]
    {
      assert b[d + i] == a[s + i];
    }
  }

  /** A run of bits within one word. */
  lemma SliceOfWord(words: seq<Word>, s: nat, n: nat)
    requires s % 64 + n <= 64 && s + n <= 64 * |words| && s / 64 < |words|
    ensures Flat(words)[s..s + n] == words[s / 64][s % 64..s % 64 + n]
  {
    var a, b := Flat(words)[s..s + n], words[s / 64][s % 64..s % 64 + n];
    forall t | 0 <= t < n
      ensures a[t] == b[t]
    {
      assert (s + t) / 64 == s / 64 && (s + t) % 64 == s % 64 + t;
      assert a[t] == Flat(words)[s + t];
    }
  }
}
