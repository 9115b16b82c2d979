/** The least-connections strategy (service/LeastConnectionLoadBalancer.java):
    servers keyed by address; getServer picks a least-loaded one and counts the
    new connection on it. */
module LeastConnection {
  import opened Wrappers
  import opened Servers
  import opened LoadBalancing

  /** `ip` holds a count no larger than any other registered server's. */
  ghost predicate IsLeastLoaded(counts: map<string, int>, ip: string) {
    ip in counts && forall k :: k in counts ==> counts[ip] <= counts[k]
  }

  /** No count exceeds another by more than one. */
  ghost predicate Balanced(counts: map<string, int>) {
    forall i, j :: i in counts && j in counts ==> counts[i] <= counts[j] + 1
  }

  /** Acquisitions alone keep the load balanced: adding the new connection to
      a least-loaded server leaves every count within one of every other. */
  lemma AcquireKeepsBalance(counts: map<string, int>, ip: string)
    requires Balanced(counts) && IsLeastLoaded(counts, ip)
    ensures Balanced(counts[ip := counts[ip] + 1])
  {
  }

  ghost function SomeKey(counts: map<string, int>): (k: string)
    requires counts != map[]
    ensures k in counts
  {
    var k :| k in counts; k
  }

  /** While some registered server is idle and every busy server holds exactly
      one connection, the least-loaded choice is an idle server. */
  lemma IdleServerChosenFirst(counts: map<string, int>, busy: set<string>, ip: string)
    requires busy <= counts.Keys && |busy| < |counts|
    requires forall k :: k in counts ==> counts[k] == if k in busy then 1 else 0
    requires IsLeastLoaded(counts, ip)
    ensures ip !in busy
    ensures forall k :: k in counts[ip := 1] ==> counts[ip := 1][k] == if k in busy + {ip} then 1 else 0
  {
    var idleKeys := counts.Keys - busy;
    assert counts.Keys == busy + idleKeys;
    var idle :| idle in idleKeys;
    assert counts[ip] <= counts[idle];
  }

  /** The sum of all active-connection counts. */
  ghost function Total(counts: map<string, int>): int
    decreases |counts|
  {
    if counts == map[] then 0
    else counts[SomeKey(counts)] + Total(counts - {SomeKey(counts)})
  }

  /** The sum does not depend on which key is taken out first. */
  lemma {:induction false} TotalWithout(counts: map<string, int>, k: string)
    requires k in counts
    ensures Total(counts) == counts[k] + Total(counts - {k})
    decreases |counts|
  {
    var j := SomeKey(counts);
    if j != k {
      TotalWithout(counts - {j}, k);
      TotalWithout(counts - {k}, j);
      assert counts - {j} - {k} == counts - {k} - {j};
    }
  }

  /** No acquisition is lost or counted twice: each one adds exactly one to
      the sum of the counts. */
  lemma AcquireAddsOne(counts: map<string, int>, ip: string)
    requires ip in counts
    ensures Total(counts[ip := counts[ip] + 1]) == Total(counts) + 1
  {
    var updated := counts[ip := counts[ip] + 1];
    TotalWithout(counts, ip);
    TotalWithout(updated, ip);
    assert updated - {ip} == counts - {ip};
  }

  class LeastConnectionLoadBalancer {
    /** `serverRegistry`: address to server. */
    var registry: map<string, Server>

    predicate Valid()
      reads this
    {
      && |registry| <= MaxServers
      && forall ip :: ip in registry ==> registry[ip].ipAddress == ip
    }

    /** The registered servers' active-connection counts. */
    ghost function Counts(): (counts: map<string, int>)
      reads this, registry.Values
      ensures counts.Keys == registry.Keys
    {
      map ip | ip in registry :: registry[ip].activeConnections
    }

    constructor ()
      ensures Valid() && registry == map[]
    {
      registry := map[];
    }

    /** addServer: the capacity check comes before the duplicate check; a new
        server is mapped from its own address. */
    method AddServer(server: Server) returns (r: Outcome<Exception>)
      requires Valid()
      modifies this`registry
      ensures Valid()
      ensures old(|registry|) >= MaxServers ==>
        r == Fail(RegistryFull) && registry == old(registry)
      ensures old(|registry|) < MaxServers && server.ipAddress in old(registry) ==>
        r == Fail(IllegalArgumentException("Server with the same IP address already exists"))
        && registry == old(registry)
      ensures old(|registry|) < MaxServers && server.ipAddress !in old(registry) ==>
        r == Pass && registry == old(registry)[server.ipAddress := server]
    {
      if |registry| >= MaxServers {
        return Fail(RegistryFull);
      }
      if server.ipAddress in registry {
        return Fail(IllegalArgumentException("Server with the same IP address already exists"));
      }
      registry := registry[server.ipAddress := server];
      r := Pass;
    }

    /** removeServer: drops the address if present; an absent address is
        silently ignored. */
    method RemoveServer(ipAddress: string)
      requires Valid()
      modifies this`registry
      ensures Valid()
      ensures registry == old(registry) - {ipAddress}
      ensures ipAddress !in old(registry) ==> registry == old(registry)
    {
      registry := registry - {ipAddress};
    }

    method RemoveAllServer()
      requires Valid()
      modifies this`registry
      ensures Valid() && registry == map[]
    {
      registry := map[];
    }

    /** `serverRegistry.values().stream().min(comparingInt(getActiveConnections))`:
        the values are visited in the map's unspecified order (an arbitrary
        choice here) and a later server replaces the current one only when its
        count is strictly smaller. */
    method LeastLoaded() returns (ip: string)
      requires Valid() && |registry| > 0
      ensures ip in registry
      ensures forall k :: k in registry ==>
        registry[ip].activeConnections <= registry[k].activeConnections
    {
      var pending := registry.Keys;
      ip :| ip in pending;
      pending := pending - {ip};
      while pending != {}
        invariant pending <= registry.Keys && ip in registry
        invariant forall k :: k in registry && k !in pending ==>
          registry[ip].activeConnections <= registry[k].activeConnections
        decreases pending
      {
        var k :| k in pending;
        if registry[k].activeConnections < registry[ip].activeConnections {
          ip := k;
        }
        pending := pending - {k};
      }
    }

    /** getServer: one least-loaded server, whose count goes up by one; every
        other server and the registry itself stay as they were. */
    method GetServer() returns (r: Result<Server, Exception>)
      requires Valid()
      modifies registry.Values`activeConnections
      ensures Valid() && registry == old(registry)
      ensures |registry| == 0 ==> r == Failure(NoServersAvailable)
      ensures |registry| > 0 ==> r.Success?
      ensures r.Success? ==>
        && r.value.ipAddress in registry && registry[r.value.ipAddress] == r.value
        && IsLeastLoaded(old(Counts()), r.value.ipAddress)
        && Counts() == old(Counts())[r.value.ipAddress := WrapInt32(old(Counts())[r.value.ipAddress] + 1)]
    {
      if |registry| == 0 {
        return Failure(NoServersAvailable);
      }
      var ip := LeastLoaded();
      var server := registry[ip];
      server.IncrementActiveConnections();
      r := Success(server);
      assert Counts() == old(Counts())[ip := server.activeConnections] by {
        forall k | k in registry
          ensures Counts()[k] == old(Counts())[ip := server.activeConnections][k]
        {
          if k != ip {
            assert registry[k] != server;
          }
        }
      }
    }

    /** releaseServer: the count goes down by one, with no clamp at zero; the
        server need not be registered. */
    method ReleaseServer(server: Server)
      modifies server`activeConnections
      ensures server.activeConnections == WrapInt32(old(server.activeConnections) - 1)
    {
      server.DecrementActiveConnections();
    }
  }
}
