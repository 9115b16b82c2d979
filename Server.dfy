/** The backend record handed out by the load balancers (model/Server.java). */
module Servers {

  const MinInt32: int := -0x8000_0000
  const MaxInt32: int := 0x7fff_ffff

  /** Java's `int`. */
  type Int32 = x: int | MinInt32 <= x <= MaxInt32

  /** Two's-complement narrowing of an unbounded integer to a Java `int`,
      which is what `++` and `--` do at the ends of the range. */
  function WrapInt32(x: int): (r: Int32)
    ensures (r - x) % 0x1_0000_0000 == 0
    ensures MinInt32 <= x <= MaxInt32 ==> r == x
  {
    (x - MinInt32) % 0x1_0000_0000 + MinInt32
  }

  /** `activeConnections++` followed by `activeConnections--` gives back the
      original count, across the wrap-around too. */
  lemma IncrementThenDecrement(c: Int32)
    ensures WrapInt32(WrapInt32(c + 1) - 1) == c
    ensures WrapInt32(WrapInt32(c - 1) + 1) == c
  {
    if c == MaxInt32 {
      assert WrapInt32(c + 1) == MinInt32;
    }
    if c == MinInt32 {
      assert WrapInt32(c - 1) == MaxInt32;
    }
  }

  /** Below the top of the range an increment adds exactly one; at the top it wraps. */
  lemma IncrementExact(c: Int32)
    ensures c < MaxInt32 ==> WrapInt32(c + 1) == c + 1
    ensures c == MaxInt32 ==> WrapInt32(c + 1) == MinInt32
  {
  }

  class Server {
    /** Identity of the server; the source has no setter for it. */
    const ipAddress: string
    /** Stored by the two-argument constructor and never read by any strategy. */
    const capacity: Int32
    var currentWeight: Int32
    var health: bool
    var activeConnections: Int32

    /** `Server(String ipAddress)`: capacity keeps Java's default 0. */
    constructor (ip: string)
      ensures ipAddress == ip && capacity == 0
      ensures currentWeight == 0 && health && activeConnections == 0
    {
      ipAddress := ip;
      capacity := 0;
      currentWeight := 0;
      health := true;
      activeConnections := 0;
    }

    /** `Server(String ipAddress, int capacity)`. */
    constructor WithCapacity(ip: string, cap: Int32)
      ensures ipAddress == ip && capacity == cap
      ensures currentWeight == 0 && health && activeConnections == 0
    {
      ipAddress := ip;
      capacity := cap;
      currentWeight := 0;
      health := true;
      activeConnections := 0;
    }

    predicate IsHealthy()
      reads this
    {
      health
    }

    method SetHealth(b: bool)
      modifies this`health
      ensures IsHealthy() == b
    {
      health := b;
    }

    method SetCurrentWeight(w: Int32)
      modifies this`currentWeight
      ensures currentWeight == w
    {
      currentWeight := w;
    }

    /** `activeConnections++`: up by one, wrapping at the top of the `int` range. */
    method IncrementActiveConnections()
      modifies this`activeConnections
      ensures activeConnections == WrapInt32(old(activeConnections) + 1)
      ensures old(activeConnections) < MaxInt32 ==> activeConnections == old(activeConnections) + 1
    {
      activeConnections := WrapInt32(activeConnections + 1);
    }

    /** `activeConnections--`: down by one with no lower bound at zero;
        only the bottom of the `int` range wraps. */
    method DecrementActiveConnections()
      modifies this`activeConnections
      ensures activeConnections == WrapInt32(old(activeConnections) - 1)
      ensures old(activeConnections) > MinInt32 ==> activeConnections == old(activeConnections) - 1
    {
      activeConnections := WrapInt32(activeConnections - 1);
    }
  }
}
