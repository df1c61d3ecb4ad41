/** Packed swap paths: an address, then any number of (three-byte fee, address) hops. */
module V3Path {
  import opened Calldata

  const FEE_SIZE: nat := 3

  type Fee = f: Bytes | |f| == FEE_SIZE witness [0, 0, 0]

  predicate WellFormed(path: Bytes) { |path| >= 20 && |path| % 23 == 20 }

  /** The address after `k` hops. */
  function AddressAt(path: Bytes, k: nat): Address
    requires 23 * k + 20 <= |path|
  {
    path[23 * k..23 * k + 20]
  }

  function AddressesUpTo(path: Bytes, k: nat): set<Address>
    requires 23 * k + 20 <= |path|
  {
    set j | 0 <= j <= k :: AddressAt(path, j)
  }

  lemma OneMoreHop(path: Bytes, k: nat)
    requires 23 * k + 20 <= |path|
    ensures AddressesUpTo(path, k) == (if k == 0 then {} else AddressesUpTo(path, k - 1)) + {AddressAt(path, k)}
  {
    if k > 0 {
      assert (set j | 0 <= j <= k :: AddressAt(path, j)) ==
             (set j | 0 <= j <= k - 1 :: AddressAt(path, j)) + {AddressAt(path, k)};
    }
  }

  /** Every address a well-formed path visits. */
  function PathAddresses(path: Bytes): set<Address>
    requires WellFormed(path)
  {
    AddressesUpTo(path, |path| / 23)
  }

  /** The packed form of a route. */
  function Pack(route: seq<Address>, fees: seq<Fee>): Bytes
    requires |route| == |fees| + 1
  {
    if fees == [] then route[0] else route[0] + fees[0] + Pack(route[1..], fees[1..])
  }

  lemma {:induction false} PackedLength(route: seq<Address>, fees: seq<Fee>)
    requires |route| == |fees| + 1
    ensures |Pack(route, fees)| == 23 * |fees| + 20
  {
    if fees != [] {
      PackedLength(route[1..], fees[1..]);
    }
  }

  lemma {:induction false} PackedAddress(route: seq<Address>, fees: seq<Fee>, k: nat)
    requires |route| == |fees| + 1 && k < |route|
    ensures |Pack(route, fees)| == 23 * |fees| + 20
    ensures AddressAt(Pack(route, fees), k) == route[k]
  {
    PackedLength(route, fees);
    if fees != [] && k > 0 {
      PackedAddress(route[1..], fees[1..], k - 1);
      var packed := Pack(route, fees);
      assert packed[23..] == Pack(route[1..], fees[1..]);
      assert AddressAt(packed[23..], k - 1) == AddressAt(packed, k);
    }
  }

  /** Packing any route with any fees passes the length checks and yields exactly its addresses. */
  lemma PackThenCollect(route: seq<Address>, fees: seq<Fee>)
    requires |route| == |fees| + 1
    ensures WellFormed(Pack(route, fees))
    ensures PathAddresses(Pack(route, fees)) == set a | a in route
  {
    var packed := Pack(route, fees);
    PackedLength(route, fees);
    assert |packed| / 23 == |fees|;
    forall k | 0 <= k < |route| ensures AddressAt(packed, k) == route[k] {
      PackedAddress(route, fees, k);
    }
    forall a | a in route ensures a in PathAddresses(packed) {
      var k :| 0 <= k < |route| && route[k] == a;
      assert AddressAt(packed, k) == a;
    }
  }

  /** Conversely, whatever passes the length checks is the packing of a route. */
  lemma {:induction false} CheckedPathsArePacked(path: Bytes) returns (route: seq<Address>, fees: seq<Fee>)
    requires WellFormed(path)
    ensures |route| == |fees| + 1 && Pack(route, fees) == path
  {
    var first: Address := path[..20];
    if |path| == 20 {
      route, fees := [first], [];
    } else {
      var fee: Fee := path[20..23];
      var laterRoute, laterFees := CheckedPathsArePacked(path[23..]);
      route, fees := [first] + laterRoute, [fee] + laterFees;
      assert route[1..] == laterRoute && fees[1..] == laterFees;
      assert path == path[..20] + path[20..23] + path[23..];
    }
  }
}
