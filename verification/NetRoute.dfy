/** Choosing the clients of a received packet by its destination address (get_mac_addr_match). */
module NetRoute {

  type Mac = m: seq<nat> | |m| == 6 witness [0, 0, 0, 0, 0, 0]

  datatype Packet = Packet(dest: Mac, body: seq<nat>)

  datatype Target = ToClient(client: nat) | Broadcast | NoMatch

  const BROADCAST_ID: int := -2
  const BROADCAST_BYTE := 0xFF

  predicate IsBroadcast(dest: Mac)
  {
    forall i :: 0 <= i < 6 ==> dest[i] == BROADCAST_BYTE
  }

  /** The first client with this address; else broadcast; else nobody. */
  function Route(macs: seq<Mac>, dest: Mac): (t: Target)
    ensures t.ToClient? ==> t.client < |macs| && macs[t.client] == dest && dest !in macs[..t.client]
    ensures t.ToClient? <==> dest in macs
    ensures t == Broadcast <==> dest !in macs && IsBroadcast(dest)
  {
    if dest in macs then ToClient(FirstIndex(macs, dest))
    else if IsBroadcast(dest) then Broadcast
    else NoMatch
  }

  function FirstIndex(macs: seq<Mac>, dest: Mac): (k: nat)
    requires dest in macs
    ensures k < |macs| && macs[k] == dest && dest !in macs[..k]
  {
    if macs[0] == dest then 0
    else
      var k := 1 + FirstIndex(macs[1..], dest);
      assert macs[..k] == [macs[0]] + macs[1..][..k - 1];
      k
  }

  /** Client c is meant to receive packets to this destination. */
  predicate Addressed(macs: seq<Mac>, dest: Mac, c: nat)
  {
    var t := Route(macs, dest);
    t == ToClient(c) || (t == Broadcast && c < |macs|)
  }

  /** The code a routing decision is returned as. */
  function Code(t: Target): int
  {
    match t
    case ToClient(c) => c
    case Broadcast => BROADCAST_ID
    case NoMatch => -1
  }

  method GetMacAddrMatch(macs: seq<Mac>, dest: Mac) returns (client: int)
    ensures client == Code(Route(macs, dest)) && -2 <= client < |macs|
    ensures 0 <= client ==> macs[client] == dest && dest !in macs[..client]
    ensures client == -2 <==> dest !in macs && dest == [0xFF, 0xFF, 0xFF, 0xFF, 0xFF, 0xFF]
  {
    var c := 0;
    while c < |macs|
      invariant 0 <= c <= |macs|
      invariant dest !in macs[..c]
    {
      var same := true;
      var i := 0;
      while i < 6 && same
        invariant 0 <= i <= 6
        invariant same <==> dest[..i] == macs[c][..i]
        invariant !same ==> dest != macs[c]
      {
        if dest[i] != macs[c][i] {
          same := false;
        }
        i := i + 1;
      }
      if same {
        assert dest == dest[..6] == macs[c][..6] == macs[c];
        return c;
      }
      c := c + 1;
    }
    var broadcast := true;
    var i := 0;
    while i < 6 && broadcast
      invariant 0 <= i <= 6
      invariant broadcast <==> forall j :: 0 <= j < i ==> dest[j] == BROADCAST_BYTE
    {
      if dest[i] != BROADCAST_BYTE {
        broadcast := false;
      }
      i := i + 1;
    }
    assert dest !in macs;
    return if broadcast then BROADCAST_ID else -1;
  }

  /** What is sent to all addresses goes to every client, if none of them has that address itself. */
  lemma BroadcastReachesAll(macs: seq<Mac>, c: nat)
    requires [0xFF, 0xFF, 0xFF, 0xFF, 0xFF, 0xFF] !in macs
    ensures Addressed(macs, [0xFF, 0xFF, 0xFF, 0xFF, 0xFF, 0xFF], c) <==> c < |macs|
  {
    assert IsBroadcast([0xFF, 0xFF, 0xFF, 0xFF, 0xFF, 0xFF]);
  }

  /** The packets of a stream addressed to client c, in order. */
  function ForClient(macs: seq<Mac>, c: nat, packets: seq<Packet>): seq<Packet>
  {
    if packets == [] then []
    else
      var p := packets[|packets| - 1];
      ForClient(macs, c, packets[..|packets| - 1]) + if Addressed(macs, p.dest, c) then [p] else []
  }

  lemma ForClientPush(macs: seq<Mac>, c: nat, packets: seq<Packet>, p: Packet)
    ensures ForClient(macs, c, packets + [p]) ==
              ForClient(macs, c, packets) + if Addressed(macs, p.dest, c) then [p] else []
  {
    assert (packets + [p])[..|packets|] == packets;
  }

  lemma {:induction false} ForClientAppend(macs: seq<Mac>, c: nat, a: seq<Packet>, b: seq<Packet>)
    ensures ForClient(macs, c, a + b) == ForClient(macs, c, a) + ForClient(macs, c, b)
  {
    if b == [] {
      assert a + b == a;
    } else {
      var init, p := b[..|b| - 1], b[|b| - 1];
      assert a + b == (a + init) + [p];
      ForClientPush(macs, c, a + init, p);
      ForClientAppend(macs, c, a, init);
    }
  }
}
