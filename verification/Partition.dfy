/**
 Partitions of the block virtualiser (blk/components/partitioning.c and the checks of blk/components/virt.c): each
 client sees a disk of its own, which is a range of the real one.
 */
module Partition {
  const TRANSFER_SIZE: nat := 4096
  const SECTOR_SIZE: nat := 512
  const SECTORS_PER_BLOCK: nat := TRANSFER_SIZE / SECTOR_SIZE
  const MODULUS: nat := 0x1_0000_0000_0000_0000
  const MBR_SIGNATURE: nat := 0xAA55
  const MAX_PRIMARY: nat := 4
  const TYPE_EMPTY: nat := 0

  /** clients[]: where a partition starts and how long it is, in sectors (both 32 bits in the table). */
  datatype Range = Range(startSector: nat, sectors: nat)

  predicate Fits32(r: Range)
  {
    r.startSector < 0x1_0000_0000 && r.sectors < 0x1_0000_0000
  }

  function FirstBlock(r: Range): nat
  {
    r.startSector / SECTORS_PER_BLOCK
  }

  function Blocks(r: Range): nat
  {
    r.sectors / SECTORS_PER_BLOCK
  }

  /** As many blocks of 4096 bytes as fit into the partition's sectors of 512, from the one it starts in. */
  lemma BlocksInBytes(r: Range)
    ensures Blocks(r) * 4096 <= r.sectors * 512 < (Blocks(r) + 1) * 4096
    ensures FirstBlock(r) * 4096 == r.startSector * 512 <==> r.startSector % 8 == 0
    ensures FirstBlock(r) * 4096 <= r.startSector * 512 < (FirstBlock(r) + 1) * 4096
  {
  }

  datatype Option<T> = None | Some(value: T)

  /** get_drv_block_number, in unsigned 64-bit arithmetic. */
  function DriverBlock(r: Range, block: nat, count: nat): Option<nat>
  {
    var b := (block + FirstBlock(r)) % MODULUS;
    if b < FirstBlock(r) || (b + count) % MODULUS > FirstBlock(r) + Blocks(r) then None else Some(b)
  }

  /** The request is within the client's disk. */
  predicate InRange(r: Range, block: nat, count: nat)
  {
    block + count <= Blocks(r)
  }

  /** The end of the request wraps around 2^64 to a small number. */
  predicate EndWraps(r: Range, block: nat, count: nat)
  {
    && block + FirstBlock(r) < MODULUS <= block + FirstBlock(r) + count
    && block + FirstBlock(r) + count - MODULUS <= FirstBlock(r) + Blocks(r)
  }

  /** Exactly which requests are accepted: those in range, and those whose end wraps around. */
  lemma AcceptedExactly(r: Range, block: nat, count: nat)
    requires Fits32(r) && block < MODULUS && count < 0x1_0000
    ensures DriverBlock(r, block, count).Some? <==> InRange(r, block, count) || EndWraps(r, block, count)
    ensures InRange(r, block, count) ==> DriverBlock(r, block, count) == Some(FirstBlock(r) + block)
  {
    BlocksFit32(r);
    WindowExactly(FirstBlock(r), Blocks(r), block, count);
  }

  lemma BlocksFit32(r: Range)
    requires Fits32(r)
    ensures FirstBlock(r) < 0x1_0000_0000 && Blocks(r) < 0x1_0000_0000
  {
  }

  lemma WindowExactly(first: nat, size: nat, block: nat, count: nat)
    requires first < 0x1_0000_0000 && size < 0x1_0000_0000 && block < MODULUS && count < 0x1_0000
    ensures var b := (block + first) % MODULUS;
            && (b >= first && (b + count) % MODULUS <= first + size <==>
                || block + count <= size
                || (block + first < MODULUS <= block + first + count
                    && block + first + count - MODULUS <= first + size))
            && (block + count <= size ==> b == first + block)
  {
    WrapOnce(block + first);
    WrapOnce((block + first) % MODULUS + count);
  }

  lemma WrapOnce(x: nat)
    requires x < 2 * MODULUS
    ensures x % MODULUS == if x < MODULUS then x else x - MODULUS
  {
  }

  /** A request the client should not be able to make, and can. */
  lemma WrappingAccepted()
    ensures var r := Range(8, 80);
            !InRange(r, MODULUS - 2, 1) && DriverBlock(r, MODULUS - 2, 1) == Some(MODULUS - 1)
  {
  }

  /** The check of the data region in handle_client: the sum is taken modulo 2^64. */
  predicate DataFits(offset: nat, count: nat, regionSize: nat)
  {
    (offset + TRANSFER_SIZE * count) % MODULUS <= regionSize
  }

  /** It means what it should exactly when the sum does not wrap. */
  lemma DataFitsExactly(offset: nat, count: nat, regionSize: nat)
    requires offset < MODULUS && count < 0x1_0000 && regionSize < MODULUS - TRANSFER_SIZE * 0x1_0000
    ensures (DataFits(offset, count, regionSize) <==> offset + TRANSFER_SIZE * count <= regionSize)
            <==> !(MODULUS <= offset + TRANSFER_SIZE * count && offset + TRANSFER_SIZE * count - MODULUS <= regionSize)
  {
    var x := offset + TRANSFER_SIZE * count;
    assert x % MODULUS == if x < MODULUS then x else x - MODULUS;
  }

  /** A buffer that begins at the last page below 2^64, and lies outside every data region, passes the check. */
  lemma DataOutsideAccepted(regionSize: nat)
    requires regionSize < MODULUS - TRANSFER_SIZE
    ensures DataFits(MODULUS - TRANSFER_SIZE, 1, regionSize) && MODULUS - TRANSFER_SIZE + TRANSFER_SIZE * 1 > regionSize
  {
  }

  // ---- Reading the partition table --------------------------------------------------------------------

  datatype TableEntry = TableEntry(kind: nat, lbaStart: nat, sectors: nat)

  predicate Usable(table: seq<TableEntry>, p: nat)
  {
    p < MAX_PRIMARY && p < |table| && table[p].kind != TYPE_EMPTY && table[p].lbaStart % SECTORS_PER_BLOCK == 0
  }

  /**
   mbr_partitions_init: succeeds exactly when the signature is right and every client's partition exists and is aligned;
   then each client has its partition and is told its size in blocks.
   */
  method MbrPartitionsInit(signature: nat, table: seq<TableEntry>, wanted: seq<nat>)
    returns (ok: bool, clients: seq<Range>, capacities: seq<nat>)
    requires |table| == MAX_PRIMARY
    ensures ok <==> signature == 0xAA55 && forall i :: 0 <= i < |wanted| ==>
                      wanted[i] < 4 && table[wanted[i]].kind != 0 && table[wanted[i]].lbaStart % 8 == 0
    ensures ok ==> forall i :: 0 <= i < |wanted| ==> Usable(table, wanted[i])
    ensures ok ==> |clients| == |capacities| == |wanted|
    ensures ok ==> forall i :: 0 <= i < |wanted| ==>
      clients[i] == Range(table[wanted[i]].lbaStart, table[wanted[i]].sectors) && capacities[i] == Blocks(clients[i])
    ensures ok ==> forall i :: 0 <= i < |wanted| ==>
      capacities[i] * 4096 <= table[wanted[i]].sectors * 512 < (capacities[i] + 1) * 4096
  {
    ok, clients, capacities := false, [], [];
    if signature != MBR_SIGNATURE {
      return;
    }
    for i := 0 to |wanted|
      invariant |clients| == |capacities| == i
      invariant forall k :: 0 <= k < i ==> Usable(table, wanted[k])
      invariant forall k :: 0 <= k < i ==>
        clients[k] == Range(table[wanted[k]].lbaStart, table[wanted[k]].sectors) && capacities[k] == Blocks(clients[k])
    {
      var p := wanted[i];
      if p >= MAX_PRIMARY || table[p].kind == TYPE_EMPTY {
        return;
      }
      if table[p].lbaStart % SECTORS_PER_BLOCK != 0 {
        return;
      }
      clients := clients + [Range(table[p].lbaStart, table[p].sectors)];
      capacities := capacities + [table[p].sectors / SECTORS_PER_BLOCK];
    }
    ok := true;
  }

  lemma BlocksBefore(start: nat, sectors: nat, next: nat)
    requires start + sectors <= next
    ensures start / SECTORS_PER_BLOCK + sectors / SECTORS_PER_BLOCK <= next / SECTORS_PER_BLOCK
  {
    var a, b, c := start / 8, sectors / 8, next / 8;
    assert 8 * a <= start && 8 * b <= sectors && next < 8 * c + 8;
    assert SECTORS_PER_BLOCK == 8;
  }

  /** Entries of the table that share no sector make partitions that share no block. */
  lemma EntriesApart(table: seq<TableEntry>, p: nat, q: nat)
    requires Usable(table, p) && Usable(table, q)
    requires table[p].lbaStart + table[p].sectors <= table[q].lbaStart
             || table[q].lbaStart + table[q].sectors <= table[p].lbaStart
    ensures Apart(Range(table[p].lbaStart, table[p].sectors), Range(table[q].lbaStart, table[q].sectors))
  {
    if table[p].lbaStart + table[p].sectors <= table[q].lbaStart {
      BlocksBefore(table[p].lbaStart, table[p].sectors, table[q].lbaStart);
    } else {
      BlocksBefore(table[q].lbaStart, table[q].sectors, table[p].lbaStart);
    }
  }

  // ---- Private disks -----------------------------------------------------------------------------------

  type Block = seq<int>

  datatype Op = Read(block: nat, count: nat) | Write(block: nat, data: seq<Block>)

  function Count(op: Op): nat
  {
    match op
    case Read(_, count) => count
    case Write(_, data) => |data|
  }

  function BlockOf(op: Op): nat
  {
    match op
    case Read(block, _) => block
    case Write(block, _) => block
  }

  /** What an operation yields: the blocks read, or nothing for a write; None for an error. */
  datatype Outcome = Outcome(disk: seq<Block>, result: Option<seq<Block>>)

  function Splice(disk: seq<Block>, at: nat, data: seq<Block>): (r: seq<Block>)
    requires at + |data| <= |disk|
    ensures |r| == |disk|
    ensures forall i :: 0 <= i < |disk| ==> r[i] == if at <= i < at + |data| then data[i - at] else disk[i]
  {
    disk[..at] + data + disk[at + |data|..]
  }

  /** A disk of one's own. */
  function Private(disk: seq<Block>, op: Op): Outcome
  {
    if Count(op) == 0 || BlockOf(op) + Count(op) > |disk| then Outcome(disk, None)
    else
      match op
      case Read(block, count) => Outcome(disk, Some(disk[block..block + count]))
      case Write(block, data) => Outcome(Splice(disk, block, data), Some([]))
  }

  /** The device, given what the virtualiser makes of a client's request. */
  function Shared(disk: seq<Block>, r: Range, op: Op): Outcome
  {
    var b := DriverBlock(r, BlockOf(op), Count(op));
    if Count(op) == 0 || b.None? || b.value + Count(op) > |disk| then Outcome(disk, None)
    else
      match op
      case Read(_, count) => Outcome(disk, Some(disk[b.value..b.value + count]))
      case Write(_, data) => Outcome(Splice(disk, b.value, data), Some([]))
  }

  /** A partition lies on the disk. */
  predicate OnDisk(disk: seq<Block>, r: Range)
  {
    Fits32(r) && FirstBlock(r) + Blocks(r) <= |disk|
  }

  /** What a client sees. */
  function View(disk: seq<Block>, r: Range): (v: seq<Block>)
    requires OnDisk(disk, r)
    ensures |v| == Blocks(r)
  {
    disk[FirstBlock(r)..FirstBlock(r) + Blocks(r)]
  }

  predicate Apart(r: Range, q: Range)
  {
    FirstBlock(r) + Blocks(r) <= FirstBlock(q) || FirstBlock(q) + Blocks(q) <= FirstBlock(r)
  }

  /** The request's numbers have the widths the queues give them: 64 bits for the block, 16 for the count. */
  predicate Sized(op: Op)
  {
    BlockOf(op) < MODULUS && Count(op) < 0x1_0000
  }

  /**
   A device has far fewer than 2^64 blocks, so a request whose end wraps around reaches it, and lies beyond its end.
   */
  predicate IsDevice(disk: seq<Block>)
  {
    |disk| + 0x1_0000 <= MODULUS
  }

  /** A client's operation is the operation on its own disk. */
  lemma ActsPrivately(disk: seq<Block>, r: Range, op: Op)
    requires IsDevice(disk) && OnDisk(disk, r) && Sized(op)
    ensures |Shared(disk, r, op).disk| == |disk|
    ensures Shared(disk, r, op).result == Private(View(disk, r), op).result
    ensures View(Shared(disk, r, op).disk, r) == Private(View(disk, r), op).disk
  {
    AcceptedExactly(r, BlockOf(op), Count(op));
    if InRange(r, BlockOf(op), Count(op)) {
      if Count(op) > 0 {
        match op
        case Read(block, count) => ReadsView(disk, r, block, count);
        case Write(block, data) => WritesView(disk, r, block, data);
      }
    } else {
      BeyondDevice(disk, r, op);
    }
  }

  /** A request out of range is refused by the virtualiser or, if its end wraps around, by the device. */
  lemma BeyondDevice(disk: seq<Block>, r: Range, op: Op)
    requires IsDevice(disk) && OnDisk(disk, r) && Sized(op) && !InRange(r, BlockOf(op), Count(op))
    ensures Shared(disk, r, op) == Outcome(disk, None)
  {
    AcceptedExactly(r, BlockOf(op), Count(op));
    if EndWraps(r, BlockOf(op), Count(op)) {
      assert (BlockOf(op) + FirstBlock(r)) % MODULUS == BlockOf(op) + FirstBlock(r);
    }
  }

  lemma ReadsView(disk: seq<Block>, r: Range, block: nat, count: nat)
    requires OnDisk(disk, r) && InRange(r, block, count)
    ensures var f := FirstBlock(r) + block; disk[f..f + count] == View(disk, r)[block..block + count]
  {
    var f, v := FirstBlock(r) + block, View(disk, r);
    var a, b := disk[f..f + count], v[block..block + count];
    forall i | 0 <= i < count
      ensures a[i] == b[i]
    {
      assert b[i] == v[block + i];
    }
  }

  lemma WritesView(disk: seq<Block>, r: Range, block: nat, data: seq<Block>)
    requires OnDisk(disk, r) && InRange(r, block, |data|)
    ensures View(Splice(disk, FirstBlock(r) + block, data), r) == Splice(View(disk, r), block, data)
  {
    var a, b := View(Splice(disk, FirstBlock(r) + block, data), r), Splice(View(disk, r), block, data);
    forall i | 0 <= i < Blocks(r)
      ensures a[i] == b[i]
    {
      assert View(disk, r)[i] == disk[FirstBlock(r) + i];
    }
  }

  /** And leaves every other client's disk alone. */
  lemma LeavesOthers(disk: seq<Block>, r: Range, q: Range, op: Op)
    requires IsDevice(disk) && OnDisk(disk, r) && OnDisk(disk, q) && Apart(r, q) && Sized(op)
    ensures |Shared(disk, r, op).disk| == |disk| && View(Shared(disk, r, op).disk, q) == View(disk, q)
  {
    AcceptedExactly(r, BlockOf(op), Count(op));
    if !InRange(r, BlockOf(op), Count(op)) {
      BeyondDevice(disk, r, op);
    }
  }

  /** Operations of the clients, in the order the device performs them. */
  datatype Access = Access(client: nat, op: Op)

  ghost predicate Partitioned(disk: seq<Block>, rs: seq<Range>)
  {
    && IsDevice(disk) && (forall i :: 0 <= i < |rs| ==> OnDisk(disk, rs[i]))
    && (forall i, j :: 0 <= i < j < |rs| ==> Apart(rs[i], rs[j]))
  }

  predicate AllowedAll(rs: seq<Range>, accesses: seq<Access>)
  {
    forall k :: 0 <= k < |accesses| ==> accesses[k].client < |rs| && Sized(accesses[k].op)
  }

  function Perform(disk: seq<Block>, rs: seq<Range>, accesses: seq<Access>): seq<Block>
    requires AllowedAll(rs, accesses)
  {
    if accesses == [] then disk
    else
      var last := accesses[|accesses| - 1];
      Shared(Perform(disk, rs, accesses[..|accesses| - 1]), rs[last.client], last.op).disk
  }

  /** The operations of one client, in the same order. */
  function Own(accesses: seq<Access>, client: nat): seq<Op>
  {
    if accesses == [] then []
    else
      var last := accesses[|accesses| - 1];
      Own(accesses[..|accesses| - 1], client) + if last.client == client then [last.op] else []
  }

  function PerformPrivate(disk: seq<Block>, ops: seq<Op>): seq<Block>
  {
    if ops == [] then disk else Private(PerformPrivate(disk, ops[..|ops| - 1]), ops[|ops| - 1]).disk
  }

  /**
   In whatever order the device performs the clients' requests: what a client sees is what its own requests, in that
   order, make of a disk of its own; and its next request yields what it would yield there.
   */
  lemma {:induction false} PrivateDisks(disk: seq<Block>, rs: seq<Range>, accesses: seq<Access>, client: nat, next: Op)
    requires Partitioned(disk, rs) && AllowedAll(rs, accesses) && client < |rs| && Sized(next)
    ensures |Perform(disk, rs, accesses)| == |disk|
    ensures var d := Perform(disk, rs, accesses);
            var v := PerformPrivate(View(disk, rs[client]), Own(accesses, client));
            View(d, rs[client]) == v && Shared(d, rs[client], next).result == Private(v, next).result
  {
    var r := rs[client];
    if accesses != [] {
      var init, last := accesses[..|accesses| - 1], accesses[|accesses| - 1];
      PrivateDisks(disk, rs, init, client, next);
      var d := Perform(disk, rs, init);
      if last.client == client {
        ActsPrivately(d, r, last.op);
        assert (Own(init, client) + [last.op])[..|Own(init, client)|] == Own(init, client);
      } else {
        LeavesOthers(d, rs[last.client], r, last.op);
        assert Own(accesses, client) == Own(init, client);
      }
    }
    ActsPrivately(Perform(disk, rs, accesses), r, next);
  }
}
