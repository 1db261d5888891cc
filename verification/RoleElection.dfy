/**
 * How two Bluetooth nodes agree, without talking to each other, on who listens and on which
 * channel (PSM).
 */
module RoleElection {
  const REQUEST_PSM := 0x1001
  const RANGE_START := 0x1002
  const RANGE_END := 0x1100
  const RANGE_SIZE := (RANGE_END - RANGE_START) / 2 + 1

  /** The first two bytes of the digest of a text; which digest it is does not matter here. */
  type Hash = string -> (nat, nat)

  ghost predicate IsHash(hash: Hash) {
    forall s :: hash(s).0 < 256 && hash(s).1 < 256
  }

  // ---- order -------------------------------------------------------------------------------

  /** The sign of strcmp. */
  function Compare(a: string, b: string): int {
    if a == "" && b == "" then 0
    else if a == "" then -1
    else if b == "" then 1
    else if a[0] != b[0] then if a[0] < b[0] then -1 else 1
    else Compare(a[1..], b[1..])
  }

  lemma {:induction false} CompareIsAnOrder(a: string, b: string)
    ensures Compare(a, b) == -Compare(b, a)
    ensures Compare(a, b) == 0 <==> a == b
  {
    if a != "" && b != "" && a[0] == b[0] {
      CompareIsAnOrder(a[1..], b[1..]);
      assert a == [a[0]] + a[1..] && b == [b[0]] + b[1..];
    }
  }

  /** a comes behind b in the order of a dictionary: where they differ first it has the greater
      character, or b ends. */
  ghost predicate Behind(a: string, b: string) {
    exists n: nat :: DiffersAt(a, b, n) && (n == |b| || a[n] > b[n])
  }

  predicate DiffersAt(a: string, b: string, n: nat) {
    n < |a| && n <= |b| && a[..n] == b[..n]
  }

  lemma {:induction false} BeginsAlike(a: string, b: string, n: nat)
    requires DiffersAt(a, b, n)
    ensures n == 0 || (b != "" && a[0] == b[0])
  {
    if n > 0 {
      assert a[..n][0] == b[..n][0];
    }
  }

  lemma {:induction false} CompareIsLexicographic(a: string, b: string)
    ensures Compare(a, b) > 0 <==> Behind(a, b)
    decreases |a|
  {
    if a != "" && b != "" && a[0] == b[0] {
      CompareIsLexicographic(a[1..], b[1..]);
      assert a == [a[0]] + a[1..] && b == [b[0]] + b[1..];
      if n: nat :| DiffersAt(a[1..], b[1..], n) && (n == |b[1..]| || a[1..][n] > b[1..][n]) {
        assert a[..n + 1] == [a[0]] + a[1..][..n] && b[..n + 1] == [b[0]] + b[1..][..n];
        assert DiffersAt(a, b, n + 1);
      }
      if n: nat :| DiffersAt(a, b, n) && (n == |b| || a[n] > b[n]) {
        assert n > 0 && a[1..][..n - 1] == a[..n][1..] && b[1..][..n - 1] == b[..n][1..];
        assert DiffersAt(a[1..], b[1..], n - 1);
      }
    } else if a != "" {
      assert a[..0] == b[..0];
      assert DiffersAt(a, b, 0);
      forall n: nat | DiffersAt(a, b, n) ensures n == 0 || (b != "" && a[0] == b[0]) {
        BeginsAlike(a, b, n);
      }
    }
  }

  // ---- the adapter -------------------------------------------------------------------------

  function Port(hash: Hash, mac: string): int {
    var value := 256 * hash(mac).0 + hash(mac).1;
    RANGE_START + value % RANGE_SIZE * 2 + 1
  }

  /** What the constructor sets up for a node that prints its own address as `local` and has
      seen the other's as `remote`. */
  class BluetoothAdapter {
    const mac: string
    var localPsm: int
    var remotePsm: int
    var isListener: bool

    constructor (hash: Hash, local: string, remote: string)
      ensures mac == remote && localPsm == Port(hash, remote) && remotePsm == Port(hash, local)
      ensures isListener <==> Compare(remote, local) > 0
    {
      mac := remote;
      new;
      SetupLocalAddr(hash);
      SetupRemoteAddr(hash, local);
      isListener := Compare(mac, local) > 0;
    }

    method SetupLocalAddr(hash: Hash)
      modifies `localPsm
      ensures localPsm == Port(hash, mac)
    {
      localPsm := Port(hash, mac);
    }

    method SetupRemoteAddr(hash: Hash, local: string)
      modifies `remotePsm
      ensures remotePsm == Port(hash, local)
    {
      remotePsm := Port(hash, local);
    }
  }

  /** Two nodes that have seen each other under the addresses they print for themselves: exactly
      one listens, and the other calls where it listens. */
  method Meet(hash: Hash, a: string, b: string) returns (x: BluetoothAdapter, y: BluetoothAdapter)
    ensures a != b ==> x.isListener != y.isListener
    ensures (x.isListener <==> Behind(b, a)) && (y.isListener <==> Behind(a, b))
    ensures x.isListener ==> y.remotePsm == x.localPsm
    ensures y.isListener ==> x.remotePsm == y.localPsm
    ensures a == b ==> !x.isListener && !y.isListener
  {
    CompareIsAnOrder(a, b);
    CompareIsLexicographic(a, b);
    CompareIsLexicographic(b, a);
    x := new BluetoothAdapter(hash, a, b);
    y := new BluetoothAdapter(hash, b, a);
  }

  /** The roles and the channels the two nodes compute, for any way they have seen each other. */
  lemma {:induction false} ExactlyOneListens(a: string, b: string)
    ensures (Compare(b, a) > 0) != (Compare(a, b) > 0) <==> a != b
  {
    CompareIsAnOrder(a, b);
  }

  // ---- the channel -------------------------------------------------------------------------

  /** A PSM is odd and the lowest bit of its upper octet is zero (Bluetooth Core Specification,
      volume 3, part A, section 4.2). */
  predicate IsPsm(port: int) {
    0 < port < 0x1_0000 && port % 2 == 1 && port / 256 % 2 == 0
  }

  /** The channel is odd, fits 16 bits and is never the one for connection requests. It lies in
      the declared range, and is a valid PSM, exactly if the hash is not 127 modulo 128. */
  lemma {:induction false} PortRange(hash: Hash, mac: string)
    requires IsHash(hash)
    ensures
      var port := Port(hash, mac);
      && port == 0x1003 + 2 * (hash(mac).1 % 128)
      && port % 2 == 1 && 0x1003 <= port <= 0x1101 && port != REQUEST_PSM
      && (port <= RANGE_END <==> hash(mac).1 % 128 != 127)
      && (IsPsm(port) <==> hash(mac).1 % 128 != 127)
  {
    var value := 256 * hash(mac).0 + hash(mac).1;
    assert value % RANGE_SIZE == hash(mac).1 % 128;
  }

  /** Two addresses share a channel exactly if the second bytes of their hashes agree modulo 128. */
  lemma {:induction false} PortCollision(hash: Hash, a: string, b: string)
    requires IsHash(hash)
    ensures Port(hash, a) == Port(hash, b) <==> hash(a).1 % 128 == hash(b).1 % 128
  {
    assert (256 * hash(a).0 + hash(a).1) % RANGE_SIZE == hash(a).1 % 128;
    assert (256 * hash(b).0 + hash(b).1) % RANGE_SIZE == hash(b).1 % 128;
  }

  /** Two nodes that print a and b for themselves and have seen each other under any texts: a caller
      calls where the listener listens exactly if, for the one digest in use, the text it prints
      and the text the listener has seen it under have second bytes that agree modulo 128. */
  method MeetAsSeen(hash: Hash, a: string, seenA: string, b: string, seenB: string)
    returns (x: BluetoothAdapter, y: BluetoothAdapter)
    requires IsHash(hash)
    ensures x.isListener <==> Compare(seenB, a) > 0
    ensures y.isListener <==> Compare(seenA, b) > 0
    ensures y.remotePsm == x.localPsm <==> hash(b).1 % 128 == hash(seenB).1 % 128
    ensures x.remotePsm == y.localPsm <==> hash(a).1 % 128 == hash(seenA).1 % 128
  {
    PortCollision(hash, b, seenB);
    PortCollision(hash, a, seenA);
    x := new BluetoothAdapter(hash, a, seenB);
    y := new BluetoothAdapter(hash, b, seenA);
  }
}
