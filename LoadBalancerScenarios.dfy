/** Runs of the two balancers, proved from the methods' contracts alone: the
    runs the repository's tests describe, and further runs that show edge
    cases of the source (a stale cursor, an unhealthy server, a release
    without an acquisition, repeated calls). */
module LoadBalancerScenarios {
  import opened Wrappers
  import opened Servers
  import opened LoadBalancing
  import opened RoundRobin
  import opened LeastConnection

  /** A new round-robin balancer with A, B, C registered in that order. */
  method ThreeServersInOrder() returns (lb: RoundRobinLoadBalancer, a: Server, b: Server, c: Server)
    ensures fresh(lb) && lb.Valid() && lb.registry == [a, b, c] && lb.currentIndex == 0
    ensures a.ipAddress == "192.168.1.1" && b.ipAddress == "192.168.1.2" && c.ipAddress == "192.168.1.3"
    ensures a.health && b.health && c.health
  {
    lb := new RoundRobinLoadBalancer();
    a := new Server("192.168.1.1");
    b := new Server("192.168.1.2");
    c := new Server("192.168.1.3");
    var ok := lb.AddServer(a);
    assert !HasIp([a], b.ipAddress);
    ok := lb.AddServer(b);
    assert !HasIp([a, b], c.ipAddress);
    ok := lb.AddServer(c);
  }

  /** A, B, C registered on a fresh balancer: five calls serve A, B, C, A, B. */
  method RoundRobinOrder() returns (picks: seq<Server>)
    ensures |picks| == 5
    ensures picks[0].ipAddress == "192.168.1.1" && picks[3] == picks[0]
    ensures picks[1].ipAddress == "192.168.1.2" && picks[4] == picks[1]
    ensures picks[2].ipAddress == "192.168.1.3"
  {
    var lb, a, b, c := ThreeServersInOrder();
    var r1 := lb.GetServer();
    assert lb.currentIndex == 1;
    var r2 := lb.GetServer();
    assert lb.currentIndex == 2;
    var r3 := lb.GetServer();
    assert lb.currentIndex == 0;
    var r4 := lb.GetServer();
    var r5 := lb.GetServer();
    picks := [r1.value, r2.value, r3.value, r4.value, r5.value];
  }

  /** `n` getServer calls on a registry nobody changes: call k serves what
      lay under the cursor after k calls, and in a full round from an in-range
      cursor every position is served, by the call CallServing names. */
  method RepeatedCalls(lb: RoundRobinLoadBalancer, n: nat) returns (results: seq<Result<Server, Exception>>)
    requires lb.Valid() && |lb.registry| > 0
    modifies lb`currentIndex
    ensures lb.Valid() && lb.registry == old(lb.registry)
    ensures lb.currentIndex == CursorAfter(old(lb.currentIndex), |lb.registry|, n)
    ensures |results| == n
    ensures forall k :: 0 <= k < n ==>
      results[k] == old(ServedAt(lb.registry, CursorAfter(lb.currentIndex, |lb.registry|, k)))
    ensures n == |lb.registry| && old(lb.currentIndex) < n ==>
      forall p :: 0 <= p < n ==>
        results[CallServing(old(lb.currentIndex), n, p)] == old(ServedAt(lb.registry, p))
  {
    results := [];
    while |results| < n
      invariant lb.Valid() && lb.registry == old(lb.registry)
      invariant |results| <= n
      invariant lb.currentIndex == CursorAfter(old(lb.currentIndex), |lb.registry|, |results|)
      invariant forall k :: 0 <= k < |results| ==>
        results[k] == old(ServedAt(lb.registry, CursorAfter(lb.currentIndex, |lb.registry|, k)))
    {
      ghost var cursor := lb.currentIndex;
      var r := lb.GetServer();
      assert r == old(ServedAt(lb.registry, cursor));
      results := results + [r];
    }
  }

  /** A fresh balancer serves the first registered server first, so a test that
      registers two servers and expects the second only passes when an earlier
      run has left the shared cursor at 1. */
  method FirstRegisteredServedFirst() returns (picked: Server)
    ensures picked.ipAddress == "192.168.1.1"
  {
    var lb := new RoundRobinLoadBalancer();
    var a := new Server("192.168.1.1");
    var b := new Server("192.168.1.2");
    var ok := lb.AddServer(a);
    assert !HasIp([a], b.ipAddress);
    ok := lb.AddServer(b);
    var r := lb.GetServer();
    picked := r.value;
  }

  /** removeAllServer keeps the cursor: after two calls on A, B, C and a
      clear, the next call on the one-server registry [D] throws, and the call
      after it serves D. */
  method StaleCursorAfterClear() returns (first: Result<Server, Exception>, second: Result<Server, Exception>)
    ensures first == Failure(NoHealthyServers)
    ensures second.Success? && second.value.ipAddress == "192.168.1.4"
  {
    var lb, a, b, c := ThreeServersInOrder();
    var r := lb.GetServer();
    r := lb.GetServer();
    assert lb.currentIndex == 2;
    lb.RemoveAllServer();
    var d := new Server("192.168.1.4");
    var ok := lb.AddServer(d);
    first := lb.GetServer();
    second := lb.GetServer();
  }

  /** An unhealthy server at the cursor makes the call throw, with no fallback
      to the healthy one next to it; the cursor still moves on. */
  method UnhealthyIsNotSkipped() returns (first: Result<Server, Exception>, second: Result<Server, Exception>)
    ensures first == Failure(NoHealthyServers)
    ensures second.Success? && second.value.ipAddress == "192.168.1.2"
  {
    var lb := new RoundRobinLoadBalancer();
    var a := new Server("192.168.1.1");
    var b := new Server("192.168.1.2");
    var ok := lb.AddServer(a);
    assert !HasIp([a], b.ipAddress);
    ok := lb.AddServer(b);
    a.SetHealth(false);
    first := lb.GetServer();
    second := lb.GetServer();
  }

  /** A removed server leaves an empty registry, on which getServer throws. */
  method RoundRobinRemoveThenGet() returns (r: Result<Server, Exception>)
    ensures r == Failure(NoServersAvailable)
  {
    var lb := new RoundRobinLoadBalancer();
    var a := new Server("192.168.1.1");
    var ok := lb.AddServer(a);
    assert HasIp(lb.registry, "192.168.1.1") by {
      assert lb.registry[0].ipAddress == "192.168.1.1";
    }
    ok := lb.RemoveServer("192.168.1.1");
    r := lb.GetServer();
  }

  /** One acquisition on a registry whose busy servers hold one connection
      each and whose other servers are idle: an idle server is chosen. */
  method AcquireIdle(lb: LeastConnectionLoadBalancer, ghost busy: set<string>) returns (s: Server)
    requires lb.Valid() && busy <= lb.registry.Keys && |busy| < |lb.registry|
    requires forall k :: k in lb.registry ==> lb.registry[k].activeConnections == if k in busy then 1 else 0
    modifies lb.registry.Values`activeConnections
    ensures lb.Valid() && lb.registry == old(lb.registry)
    ensures s.ipAddress in lb.registry && s.ipAddress !in busy
    ensures forall k :: k in lb.registry ==>
      lb.registry[k].activeConnections == if k in busy + {s.ipAddress} then 1 else 0
  {
    ghost var before := lb.Counts();
    IncrementExact(0);
    var r := lb.GetServer();
    s := r.value;
    IdleServerChosenFirst(before, busy, s.ipAddress);
  }

  /** The lemmas about the counts, applied to one real getServer call: unless
      the chosen count is already `Integer.MAX_VALUE`, the call adds exactly
      one to the sum of the counts and keeps a balanced load balanced; on an
      empty registry nothing changes. */
  method AcquireCounted(lb: LeastConnectionLoadBalancer) returns (r: Result<Server, Exception>)
    requires lb.Valid()
    modifies lb.registry.Values`activeConnections
    ensures lb.Valid() && lb.registry == old(lb.registry)
    ensures r.Failure? ==> lb.Counts() == old(lb.Counts())
    ensures r.Success? ==> r.value.ipAddress in lb.registry
    ensures r.Success? && old(lb.Counts())[r.value.ipAddress] < MaxInt32 ==>
      && Total(lb.Counts()) == old(Total(lb.Counts())) + 1
      && (old(Balanced(lb.Counts())) ==> Balanced(lb.Counts()))
  {
    ghost var before := lb.Counts();
    r := lb.GetServer();
    if r.Success? {
      var ip := r.value.ipAddress;
      IncrementExact(before[ip]);
      if before[ip] < MaxInt32 {
        assert lb.Counts() == before[ip := before[ip] + 1];
        AcquireAddsOne(before, ip);
        if Balanced(before) {
          AcquireKeepsBalance(before, ip);
        }
      }
    }
  }

  /** Registers a new server under an address not yet in use. */
  method RegisterNew(lb: LeastConnectionLoadBalancer, ip: string) returns (s: Server)
    requires lb.Valid() && |lb.registry| < MaxServers && ip !in lb.registry
    modifies lb`registry
    ensures fresh(s) && s.activeConnections == 0
    ensures lb.Valid() && lb.registry == old(lb.registry)[ip := s]
  {
    s := new Server(ip);
    var ok := lb.AddServer(s);
  }

  /** A new balancer holding three new, idle servers. */
  method ThreeIdleServers() returns (lb: LeastConnectionLoadBalancer)
    ensures fresh(lb) && lb.Valid() && |lb.registry| == 3
    ensures forall k :: k in lb.registry ==> fresh(lb.registry[k]) && lb.registry[k].activeConnections == 0
  {
    lb := new LeastConnectionLoadBalancer();
    var a := RegisterNew(lb, "192.168.1.1");
    var b := RegisterNew(lb, "192.168.1.2");
    var c := RegisterNew(lb, "192.168.1.3");
    assert lb.registry == map["192.168.1.1" := a, "192.168.1.2" := b, "192.168.1.3" := c];
  }

  /** Three fresh servers, three acquisitions without release: three distinct servers. */
  method LeastConnectionBalancesLoad() returns (s1: Server, s2: Server, s3: Server)
    ensures s1 != s2 && s2 != s3 && s1 != s3
  {
    var lb := ThreeIdleServers();
    s1 := AcquireIdle(lb, {});
    s2 := AcquireIdle(lb, {s1.ipAddress});
    ghost var busy := {s1.ipAddress, s2.ipAddress};
    assert |busy| == 2;
    s3 := AcquireIdle(lb, busy);
  }

  /** Acquire then release on the only server: its count goes 0, 1, 0. */
  method LeastConnectionAcquireRelease() returns (acquired: int, released: int)
    ensures acquired == 1 && released == 0
  {
    var lb := new LeastConnectionLoadBalancer();
    var a := new Server("192.168.1.1");
    var ok := lb.AddServer(a);
    var r := lb.GetServer();
    assert r.value == a;
    acquired := a.activeConnections;
    lb.ReleaseServer(a);
    released := a.activeConnections;
  }

  /** Releasing a server that was never acquired takes its count below zero. */
  method ReleaseWithoutAcquire() returns (count: int)
    ensures count == -1
  {
    var lb := new LeastConnectionLoadBalancer();
    var a := new Server("192.168.1.1");
    var ok := lb.AddServer(a);
    lb.ReleaseServer(a);
    count := a.activeConnections;
  }

  /** A removed server leaves an empty registry, on which getServer throws;
      removing an absent address is silent. */
  method LeastConnectionRemoveThenGet() returns (r: Result<Server, Exception>)
    ensures r == Failure(NoServersAvailable)
  {
    var lb := new LeastConnectionLoadBalancer();
    var a := new Server("192.168.1.1");
    var ok := lb.AddServer(a);
    lb.RemoveServer("192.168.1.1");
    lb.RemoveServer("192.168.1.1");
    r := lb.GetServer();
  }
}
