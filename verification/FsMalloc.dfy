/**
 util/fsmalloc.c: runs of fixed-size cells handed out from a cursor that goes round a region, with one bit per cell
 saying whether the cell is available.
 */
module FsMalloc {
  import opened BitArray
  import opened Modular

  const UINT_MODULUS: nat := 0x1_0000_0000
  const ADDRESS_MODULUS: nat := 0x1_0000_0000_0000_0000

  /** A live allocation: count cells from start. */
  datatype Range = Range(start: nat, count: nat)

  predicate InRange(r: Range, c: nat)
  {
    r.start <= c < r.start + r.count
  }

  /** How many live allocations contain a cell. */
  function Holders(live: seq<Range>, c: nat): nat
  {
    if live == [] then 0 else Holders(live[..|live| - 1], c) + if InRange(live[|live| - 1], c) then 1 else 0
  }

  /** Every cell of a region of n is either available, or in exactly one live allocation; none reaches past the end. */
  ghost predicate Accounted(avail: seq<bool>, live: seq<Range>, n: nat)
  {
    && n <= |avail|
    && (forall c :: 0 <= c < n ==> Holders(live, c) == if avail[c] then 0 else 1)
    && (forall k :: 0 <= k < |live| ==> live[k].start + live[k].count <= n)
  }

  predicate AllAvailable(avail: seq<bool>, start: nat, count: nat)
  {
    start + count <= |avail| && forall c :: start <= c < start + count ==> avail[c]
  }

  // ---- What the accounting means ----------------------------------------------------------------

  lemma {:induction false} HoldersAppend(a: seq<Range>, b: seq<Range>, c: nat)
    ensures Holders(a + b, c) == Holders(a, c) + Holders(b, c)
  {
    if b == [] {
      assert a + b == a;
    } else {
      HoldersAppend(a, b[..|b| - 1], c);
      assert (a + b)[..|a + b| - 1] == a + b[..|b| - 1];
    }
  }

  lemma HoldersOne(r: Range, c: nat)
    ensures Holders([r], c) == if InRange(r, c) then 1 else 0
  {
    assert [r][..0] == [];
  }

  /** Taking out one allocation. */
  lemma HoldersWithout(live: seq<Range>, k: nat, c: nat)
    requires k < |live|
    ensures Holders(live[..k] + live[k + 1..], c) == Holders(live, c) - if InRange(live[k], c) then 1 else 0
  {
    assert live == live[..k] + ([live[k]] + live[k + 1..]);
    HoldersAppend(live[..k], [live[k]] + live[k + 1..], c);
    HoldersAppend([live[k]], live[k + 1..], c);
    HoldersAppend(live[..k], live[k + 1..], c);
    HoldersOne(live[k], c);
  }

  /** No two live allocations share a cell, and an available cell is in none. */
  lemma LiveDisjoint(avail: seq<bool>, live: seq<Range>, n: nat, i: nat, j: nat, c: nat)
    requires Accounted(avail, live, n) && i < j < |live| && c < n
    ensures !(InRange(live[i], c) && InRange(live[j], c))
    ensures InRange(live[i], c) ==> !avail[c]
  {
    HoldersWithout(live, j, c);
    var rest := live[..j] + live[j + 1..];
    assert rest[i] == live[i];
    HoldersWithout(rest, i, c);
  }

  /** Available exactly when in no live allocation. */
  lemma AvailableIffFree(avail: seq<bool>, live: seq<Range>, n: nat, c: nat)
    requires Accounted(avail, live, n) && c < n
    ensures avail[c] <==> forall k :: 0 <= k < |live| ==> !InRange(live[k], c)
  {
    if avail[c] {
      forall k | 0 <= k < |live|
        ensures !InRange(live[k], c)
      {
        HoldersWithout(live, k, c);
      }
    } else {
      SomeHolder(live, c);
    }
  }

  lemma {:induction false} SomeHolder(live: seq<Range>, c: nat)
    requires Holders(live, c) > 0
    ensures exists k :: 0 <= k < |live| && InRange(live[k], c)
  {
    if !InRange(live[|live| - 1], c) {
      var init := live[..|live| - 1];
      SomeHolder(init, c);
      var k :| 0 <= k < |init| && InRange(init[k], c);
      assert live[k] == init[k];
    }
  }

  lemma AllocAccounts(avail: seq<bool>, live: seq<Range>, n: nat, start: nat, count: nat)
    requires Accounted(avail, live, n) && start + count <= n && AllAvailable(avail, start, count)
    ensures Accounted(Region(avail, start, start + count, Zero), live + [Range(start, count)], n)
  {
    forall c | 0 <= c < n
      ensures Holders(live + [Range(start, count)], c) == if Region(avail, start, start + count, Zero)[c] then 0 else 1
    {
      HoldersAppend(live, [Range(start, count)], c);
      HoldersOne(Range(start, count), c);
    }
  }

  lemma FreeAccounts(avail: seq<bool>, live: seq<Range>, n: nat, k: nat)
    requires Accounted(avail, live, n) && k < |live|
    ensures Accounted(Region(avail, live[k].start, live[k].start + live[k].count, Fill), live[..k] + live[k + 1..], n)
  {
    var rest, avail' := live[..k] + live[k + 1..], Region(avail, live[k].start, live[k].start + live[k].count, Fill);
    forall c | 0 <= c < n
      ensures Holders(rest, c) == if avail'[c] then 0 else 1
    {
      HoldersWithout(live, k, c);
    }
  }

  /** Freeing cells that are no allocation keeps the accounting exactly if nothing of them was in use. */
  lemma StrayFree(avail: seq<bool>, live: seq<Range>, n: nat, start: nat, count: nat)
    requires Accounted(avail, live, n) && start + count <= n
    ensures Accounted(Region(avail, start, start + count, Fill), live, n) <==> AllAvailable(avail, start, count)
  {
    var avail' := Region(avail, start, start + count, Fill);
    if AllAvailable(avail, start, count) {
      assert forall c :: 0 <= c < n ==> avail'[c] == avail[c];
    } else {
      var c :| start <= c < start + count && !avail[c];
      assert Holders(live, c) == 1 && avail'[c];
    }
  }

  // ---- The cursor ---------------------------------------------------------------------------------

  /** Where an allocation of count cells would start: at the cursor, or at the beginning if it would not fit. */
  function StartAt(pos: nat, n: nat, count: nat): nat
  {
    if pos + count > n then 0 else pos
  }

  /** What fsmalloc_full answers: it keeps the cursor in an unsigned int. */
  predicate Full(avail: seq<bool>, pos: nat, n: nat, count: nat)
  {
    count > n || (count > 0 && !AllAvailable(avail, if pos + count > n then 0 else pos % UINT_MODULUS, count))
  }

  /** A cell array with all but the last cell of a run available. */
  function AllBut(n: nat, hole: nat): (r: seq<bool>)
    ensures |r| == n && forall c :: 0 <= c < n ==> r[c] == (c != hole)
  {
    seq(n, c requires 0 <= c < n => c != hole)
  }

  /** fsmalloc_full looks at the cells that would be allocated exactly when the cursor fits an unsigned int. */
  lemma FullIsSound(pos: nat, n: nat, count: nat)
    requires 0 < count && pos + count <= n
    ensures (forall avail: seq<bool> :: |avail| == n && !Full(avail, pos, n, count) ==> AllAvailable(avail, pos, count))
            <==> pos < 0x1_0000_0000
  {
    if pos >= UINT_MODULUS {
      var hole := pos + count - 1;
      var avail := AllBut(n, hole);
      assert pos % UINT_MODULUS + count <= hole;
      assert !avail[hole];
      assert !Full(avail, pos, n, count) && !AllAvailable(avail, pos, count);
    }
  }

  // ---- Addresses ----------------------------------------------------------------------------------

  function BitposToAddr(base: nat, cellSize: nat, pos: nat): nat
  {
    (base + pos * cellSize) % ADDRESS_MODULUS
  }

  function AddrToBitpos(base: nat, cellSize: nat, addr: nat): nat
    requires cellSize > 0
  {
    ((addr - base) % ADDRESS_MODULUS) / cellSize
  }

  /** The address of a cell leads back to the cell, wherever the region lies. */
  lemma AddressRoundTrip(base: nat, cellSize: nat, pos: nat)
    requires cellSize > 0 && pos * cellSize < ADDRESS_MODULUS
    ensures AddrToBitpos(base, cellSize, BitposToAddr(base, cellSize, pos)) == pos
  {
    var x := pos * cellSize;
    MulNonNegative(pos, cellSize);
    Displaced(base, x);
    DivModUnique(x, pos, 0, cellSize);
  }

  /** Adding and taking away a base leaves a displacement, modulo the address space. */
  lemma Displaced(base: nat, x: nat)
    requires x < ADDRESS_MODULUS
    ensures ((base + x) % ADDRESS_MODULUS - base) % ADDRESS_MODULUS == x
  {
    ModAdd(base + x, 0 - base, ADDRESS_MODULUS);
    ModSmall(x, ADDRESS_MODULUS);
  }

  // ---- The allocator --------------------------------------------------------------------------------

  class Allocator {
    const avail: Bits
    const numCells: nat
    const cellSize: nat
    const baseAddr: nat
    var pos: nat                  // avail_bitpos
    ghost var live: seq<Range>

    ghost predicate Valid()
      reads this, avail, avail.words
    {
      && Accounted(avail.Abs(), live, numCells)
      && numCells <= avail.NumBits() && numCells <= UINT_MODULUS
      && cellSize > 0 && numCells * cellSize <= ADDRESS_MODULUS
      && (pos < numCells || pos == 0) && (forall k :: 0 <= k < |live| ==>
           live[k].start < numCells || live[k].start == 0)
    }

    /** fsmalloc_init, over words with any contents. */
    constructor (bits: Bits, base: nat, cell: nat, n: nat)
      requires n <= bits.NumBits() && n <= UINT_MODULUS && cell > 0 && n * cell <= ADDRESS_MODULUS
      modifies bits.words
      ensures Valid() && live == [] && avail == bits && numCells == n && pos == 0
    {
      avail, numCells, cellSize, baseAddr, pos, live := bits, n, cell, base, 0, [];
      new;
      avail.SetRegion(0, numCells, Fill);
    }

    /** fsmalloc_full: builds a mask over words that hold anything, and compares; what they held does not matter. */
    method IsFull(count: nat) returns (full: bool)
      requires Valid()
      ensures full <==> count > numCells || !AllAvailable(avail.Abs(), StartAt(pos, numCells, count), count)
    {
      if count > numCells {
        return true;
      }
      if count == 0 {
        return false;
      }
      var start := Start(count);
      var same := OnesAt(start, count);
      return !same;
    }

    /** Where fsmalloc_full looks: the cursor, in an unsigned int. */
    method Start(count: nat) returns (start: nat)
      requires Valid()
      ensures start == StartAt(pos, numCells, count)
    {
      start := pos % UINT_MODULUS;
      if pos + count > numCells {
        start := 0;
      }
    }

    /** Compare a run of bits with a mask of ones, made over words that hold anything. */
    method OnesAt(start: nat, count: nat) returns (same: bool)
      requires start + count <= avail.NumBits()
      ensures same <==> AllAvailable(avail.Abs(), start, count)
    {
      var mask := new Bits((count + 63) / 64);
      mask.SetRegion(0, count, Fill);
      same := avail.CmpRegion(start, mask, 0, count);
      CompareOnes(avail.Abs(), start, mask.Abs(), count);
    }

    /** fsmalloc_alloc: -1 exactly when full, changing nothing; otherwise the cells of the result were available. */
    method Alloc(count: nat) returns (ok: bool, addr: nat)
      requires Valid()
      modifies this`pos, this`live, avail.words
      ensures Valid()
      ensures ok <==> count <= numCells && AllAvailable(old(avail.Abs()), StartAt(old(pos), numCells, count), count)
      ensures ok ==> live == old(live) + [Range(if old(pos) + count <= numCells then old(pos) else 0, count)]
      ensures ok ==> pos == if live[|live| - 1].start + count == numCells then 0 else live[|live| - 1].start + count
      ensures ok ==> addr == (baseAddr + live[|live| - 1].start * cellSize) % 0x1_0000_0000_0000_0000
      ensures !ok ==> live == old(live) && pos == old(pos) && avail.Abs() == old(avail.Abs())
    {
      var full := IsFull(count);
      if full {
        return false, 0;
      }
      if pos + count > numCells {
        pos := 0;
      }
      addr := BitposToAddr(baseAddr, cellSize, pos);
      TakeCells(count);
      ok := true;
    }

    /** The cells at the cursor, which are available, are taken, and the cursor goes behind them. */
    method TakeCells(count: nat)
      requires Valid() && pos + count <= numCells && AllAvailable(avail.Abs(), pos, count)
      modifies this`pos, this`live, avail.words
      ensures Valid() && live == old(live) + [Range(old(pos), count)]
      ensures pos == if old(pos) + count == numCells then 0 else old(pos) + count
    {
      AllocAccounts(avail.Abs(), live, numCells, pos, count);
      avail.SetRegion(pos, count, Zero);
      live := live + [Range(pos, count)];
      var newPos := pos + count;
      if newPos == numCells {
        newPos := 0;
      }
      pos := newPos;
    }

    /** The cell of an address, as fsmalloc_free computes it. */
    function StartOf(addr: nat): nat
      requires cellSize > 0
    {
      AddrToBitpos(baseAddr, cellSize, addr) % UINT_MODULUS
    }

    /** This is the address and size of an allocation. */
    predicate Names(addr: nat, count: nat, r: Range)
    {
      addr == BitposToAddr(baseAddr, cellSize, r.start) && count == r.count
    }

    /**
     fsmalloc_free of the cells from an address on, whatever they are: the assertion on their number holds or not, and
     if it does they become available, and no other cell changes. The k-th live allocation, given by its address and
     size, is freed. Cells that are not that allocation are freed without harm exactly if all of them were available.
     */
    method Free(addr: nat, count: nat, ghost k: nat) returns (ok: bool)
      requires Valid() && count + UINT_MODULUS <= ADDRESS_MODULUS
      modifies this`live, avail.words
      ensures ok <==> StartOf(addr) + count <= numCells
      ensures !ok ==> avail.Abs() == old(avail.Abs()) && live == old(live)
      ensures ok ==> StartOf(addr) + count <= |old(avail.Abs())|
      ensures ok ==> avail.Abs() == Region(old(avail.Abs()), StartOf(addr), StartOf(addr) + count, Fill)
      ensures k < |old(live)| && Names(addr, count, old(live)[k]) ==>
                ok && Valid() && live == old(live)[..k] + old(live)[k + 1..]
      ensures ok && !(k < |old(live)| && old(live)[k] == Range(StartOf(addr), count)) ==>
                live == old(live) && (Valid() <==> AllAvailable(old(avail.Abs()), StartOf(addr), count))
    {
      var start := AddrToBitpos(baseAddr, cellSize, addr) % UINT_MODULUS;
      if k < |live| {
        LiveCell(live[k]);
      }
      ok := start + count <= numCells;
      if !ok {
        return;
      }
      if k < |live| && live[k] == Range(start, count) {
        FreeAccounts(avail.Abs(), live, numCells, k);
        live := live[..k] + live[k + 1..];
      } else {
        StrayFree(avail.Abs(), live, numCells, start, count);
      }
      avail.SetRegion(start, count, Fill);
    }

    /** The address of an allocation leads back to it. */
    lemma LiveCell(r: Range)
      requires Valid() && r in live
      ensures StartOf(BitposToAddr(baseAddr, cellSize, r.start)) == r.start && r.start + r.count <= numCells
    {
      if r.start > 0 {
        CellFits(r.start, numCells, cellSize);
      }
      AddressRoundTrip(baseAddr, cellSize, r.start);
    }

    /** Once everything is freed, any request that the region can hold succeeds, wherever the cursor is. */
    lemma EmptyServesAll(count: nat)
      requires Valid() && live == [] && count <= numCells
      ensures AllAvailable(avail.Abs(), StartAt(pos, numCells, count), count)
    {
      var a := avail.Abs();
      forall c | 0 <= c < numCells
        ensures a[c]
      {
        assert Holders(live, c) == 0;
      }
    }
  }

  lemma CellFits(pos: nat, n: nat, cellSize: nat)
    requires pos < n && cellSize > 0 && n * cellSize <= ADDRESS_MODULUS
    ensures pos * cellSize < ADDRESS_MODULUS
  {
    MulAtLeast(n - pos, cellSize);
    Distribute(n - pos, pos, cellSize);
  }

  lemma Distribute(a: nat, b: nat, n: nat)
    ensures (a + b) * n == a * n + b * n
  {
  }

  lemma CompareOnes(avail: seq<bool>, start: nat, mask: seq<bool>, count: nat)
    requires start + count <= |avail| && count <= |mask| && forall c :: 0 <= c < count ==> mask[c]
    ensures avail[start..start + count] == mask[0..0 + count] <==> AllAvailable(avail, start, count)
  {
    var a, b := avail[start..start + count], mask[0..0 + count];
    if a == b {
      forall c | start <= c < start + count
        ensures avail[c]
      {
        assert a[c - start] == b[c - start];
      }
    } else if AllAvailable(avail, start, count) {
      assert forall c :: 0 <= c < count ==> a[c] == b[c];
    }
  }
}
