/** The round-robin strategy (service/RoundRobinLoadBalancer.java): an
    insertion-ordered registry of servers and a cursor shared by all callers. */
module RoundRobin {
  import opened Wrappers
  import opened Servers
  import opened LoadBalancing

  /** `serverRegistry.stream().anyMatch(s -> s.getIpAddress().equals(ip))` */
  predicate HasIp(servers: seq<Server>, ip: string) {
    exists i :: 0 <= i < |servers| && servers[i].ipAddress == ip
  }

  predicate DistinctIps(servers: seq<Server>) {
    forall i, j :: 0 <= i < j < |servers| ==> servers[i].ipAddress != servers[j].ipAddress
  }

  /** `serverRegistry.removeIf(server -> server.getIpAddress().equals(ip))`:
      keeps, in order, exactly the servers with another address. */
  function WithoutIp(servers: seq<Server>, ip: string): (r: seq<Server>)
    ensures |r| <= |servers|
    ensures !HasIp(r, ip)
  {
    if servers == [] then []
    else if servers[0].ipAddress == ip then WithoutIp(servers[1..], ip)
    else [servers[0]] + WithoutIp(servers[1..], ip)
  }

  /** removeIf keeps a server only if it was registered under another address,
      and keeps every such server. */
  lemma {:induction false} WithoutIpMember(servers: seq<Server>, ip: string, s: Server)
    ensures s in WithoutIp(servers, ip) <==> s in servers && s.ipAddress != ip
  {
    if servers != [] {
      WithoutIpMember(servers[1..], ip, s);
      assert servers == [servers[0]] + servers[1..];
    }
  }

  /** removeIf reports a removal exactly when anyMatch would have found the
      address: the duplicate check of addServer and the not-found check of
      removeServer agree. */
  lemma {:induction false} RemovedIffPresent(servers: seq<Server>, ip: string)
    ensures |WithoutIp(servers, ip)| < |servers| <==> HasIp(servers, ip)
  {
    if servers != [] {
      var tail := servers[1..];
      RemovedIffPresent(tail, ip);
      assert HasIp(tail, ip) ==> HasIp(servers, ip) by {
        if HasIp(tail, ip) {
          var i :| 0 <= i < |tail| && tail[i].ipAddress == ip;
          assert servers[i + 1] == tail[i];
        }
      }
      if servers[0].ipAddress != ip {
        assert HasIp(servers, ip) ==> HasIp(tail, ip) by {
          if HasIp(servers, ip) {
            var i :| 0 <= i < |servers| && servers[i].ipAddress == ip;
            assert tail[i - 1] == servers[i];
          }
        }
      }
    }
  }

  /** removeIf on an absent address removes nothing. */
  lemma {:induction false} WithoutAbsentIp(servers: seq<Server>, ip: string)
    requires !HasIp(servers, ip)
    ensures WithoutIp(servers, ip) == servers
  {
    if servers != [] {
      assert servers[0].ipAddress != ip;
      assert !HasIp(servers[1..], ip) by {
        forall i | 0 <= i < |servers[1..]|
          ensures servers[1..][i].ipAddress != ip
        {
          assert servers[1..][i] == servers[1 + i];
        }
      }
      WithoutAbsentIp(servers[1..], ip);
    }
  }

  /** Dropping the first server keeps the addresses unique. */
  lemma DistinctTail(servers: seq<Server>)
    requires DistinctIps(servers) && servers != []
    ensures DistinctIps(servers[1..])
  {
    forall i, j | 0 <= i < j < |servers[1..]|
      ensures servers[1..][i].ipAddress != servers[1..][j].ipAddress
    {
      assert servers[1..][i] == servers[i + 1] && servers[1..][j] == servers[j + 1];
    }
  }

  /** With unique addresses, removing the first server's address deletes
      just that server. */
  lemma WithoutHeadIp(servers: seq<Server>, ip: string)
    requires DistinctIps(servers)
    requires servers != [] && servers[0].ipAddress == ip
    ensures WithoutIp(servers, ip) == servers[1..]
  {
    var rest := servers[1..];
    assert !HasIp(rest, ip) by {
      forall k | 0 <= k < |rest|
        ensures rest[k].ipAddress != ip
      {
        assert rest[k] == servers[1 + k];
      }
    }
    WithoutAbsentIp(rest, ip);
  }

  /** With unique addresses, removeIf deletes the one matching server and
      leaves the others in their order. */
  lemma {:induction false} WithoutPresentIp(servers: seq<Server>, ip: string, i: nat)
    requires DistinctIps(servers)
    requires i < |servers| && servers[i].ipAddress == ip
    ensures WithoutIp(servers, ip) == servers[..i] + servers[i + 1..]
  {
    if i == 0 {
      WithoutHeadIp(servers, ip);
      assert servers[..0] + servers[1..] == servers[1..];
    } else {
      var rest := servers[1..];
      assert servers[0].ipAddress != ip;
      DistinctTail(servers);
      assert rest[i - 1] == servers[i];
      WithoutPresentIp(rest, ip, i - 1);
      assert rest[..i - 1] + rest[i..] == servers[1..i] + servers[i + 1..];
      calc {
        WithoutIp(servers, ip);
        [servers[0]] + WithoutIp(rest, ip);
        [servers[0]] + (servers[1..i] + servers[i + 1..]);
        { assert [servers[0]] + servers[1..i] == servers[..i]; }
        servers[..i] + servers[i + 1..];
      }
    }
  }

  /** Removing by address keeps the remaining addresses unique. */
  lemma {:induction false} WithoutIpKeepsDistinct(servers: seq<Server>, ip: string)
    requires DistinctIps(servers)
    ensures DistinctIps(WithoutIp(servers, ip))
  {
    if servers != [] {
      DistinctTail(servers);
      WithoutIpKeepsDistinct(servers[1..], ip);
      var rest := WithoutIp(servers[1..], ip);
      if servers[0].ipAddress != ip {
        var r := [servers[0]] + rest;
        forall i, j | 0 <= i < j < |r|
          ensures r[i].ipAddress != r[j].ipAddress
        {
          if i == 0 {
            assert r[j] == rest[j - 1];
            WithoutIpMember(servers[1..], ip, r[j]);
            var k :| 0 <= k < |servers[1..]| && servers[1..][k] == r[j];
            assert servers[1..][k] == servers[k + 1];
          } else {
            assert r[i] == rest[i - 1] && r[j] == rest[j - 1];
          }
        }
      }
    }
  }

  /** The cursor update `(current + 1) % serverRegistry.size()`. */
  function Advance(cursor: int, size: nat): (c: int)
    requires size > 0
    ensures 0 <= c < size
    ensures 0 <= cursor && cursor + 1 < size ==> c == cursor + 1
    ensures cursor + 1 == size ==> c == 0
  {
    (cursor + 1) % size
  }

  /** The cursor after `n` calls of getServer on a registry of `size` servers. */
  function CursorAfter(cursor: int, size: nat, n: nat): int
    requires size > 0
  {
    if n == 0 then cursor else Advance(CursorAfter(cursor, size, n - 1), size)
  }

  /** From an in-range cursor, call `k` of a round (counting from 0) serves
      position `cursor + k`, wrapped once past the end of the registry. */
  lemma {:induction false} CursorAfterRound(cursor: nat, size: nat, k: nat)
    requires cursor < size && k <= size
    ensures CursorAfter(cursor, size, k) == if cursor + k < size then cursor + k else cursor + k - size
  {
    if k > 0 {
      CursorAfterRound(cursor, size, k - 1);
    }
  }

  /** After `size` calls the cursor is back where it started. */
  lemma FullRoundReturns(cursor: nat, size: nat)
    requires cursor < size
    ensures CursorAfter(cursor, size, size) == cursor
  {
    CursorAfterRound(cursor, size, size);
  }

  /** Fairness, part one: within a round every position is served, by this call. */
  function CallServing(cursor: nat, size: nat, p: nat): (k: nat)
    requires cursor < size && p < size
    ensures k < size && CursorAfter(cursor, size, k) == p
  {
    var k := if cursor <= p then p - cursor else p + size - cursor;
    CursorAfterRound(cursor, size, k);
    k
  }

  /** Fairness, part two: within a round no position is served twice. */
  lemma RoundServesEachOnce(cursor: nat, size: nat, k1: nat, k2: nat)
    requires cursor < size && k1 < k2 < size
    ensures CursorAfter(cursor, size, k1) != CursorAfter(cursor, size, k2)
  {
    CursorAfterRound(cursor, size, k1);
    CursorAfterRound(cursor, size, k2);
  }

  /** What a getServer call whose old cursor is `cursor` returns on a
      non-empty registry: the server there if it exists and is healthy. */
  function ServedAt(registry: seq<Server>, cursor: int): Result<Server, Exception>
    reads registry
  {
    if 0 <= cursor < |registry| && registry[cursor].health then Success(registry[cursor])
    else Failure(NoHealthyServers)
  }

  class RoundRobinLoadBalancer {
    /** `serverRegistry`, in insertion order. */
    var registry: seq<Server>
    /** `currentIndex`, the position the next getServer call will serve. */
    var currentIndex: int

    predicate Valid()
      reads this
    {
      && |registry| <= MaxServers
      && DistinctIps(registry)
      && 0 <= currentIndex < MaxServers
    }

    constructor ()
      ensures Valid()
      ensures registry == [] && currentIndex == 0
    {
      registry := [];
      currentIndex := 0;
    }

    /** addServer: the capacity check comes before the duplicate check; a new
        server is appended at the end. */
    method AddServer(server: Server) returns (r: Outcome<Exception>)
      requires Valid()
      modifies this`registry
      ensures Valid()
      ensures old(|registry|) >= MaxServers ==>
        r == Fail(RegistryFull) && registry == old(registry)
      ensures old(|registry|) < MaxServers && HasIp(old(registry), server.ipAddress) ==>
        r == Fail(IllegalArgumentException("Server with the same ID already exists"))
        && registry == old(registry)
      ensures old(|registry|) < MaxServers && !HasIp(old(registry), server.ipAddress) ==>
        r == Pass && registry == old(registry) + [server]
    {
      if |registry| >= MaxServers {
        return Fail(RegistryFull);
      }
      if HasIp(registry, server.ipAddress) {
        return Fail(IllegalArgumentException("Server with the same ID already exists"));
      }
      registry := registry + [server];
      r := Pass;
      assert forall i :: 0 <= i < |old(registry)| ==> registry[i] == old(registry)[i];
    }

    /** removeServer: removes the server with that address, keeping the order
        of the others, and throws when nothing was removed. */
    method RemoveServer(serverId: string) returns (r: Outcome<Exception>)
      requires Valid()
      modifies this`registry
      ensures Valid()
      ensures r.Pass? <==> HasIp(old(registry), serverId)
      ensures r.Fail? ==>
        r.error == IllegalArgumentException("Server with ID " + serverId + " not found in the registry")
        && registry == old(registry)
      ensures r.Pass? ==>
        exists i :: 0 <= i < |old(registry)| && old(registry)[i].ipAddress == serverId
          && registry == old(registry)[..i] + old(registry)[i + 1..]
    {
      var remaining := WithoutIp(registry, serverId);
      var removed := |remaining| < |registry|;
      RemovedIffPresent(registry, serverId);
      WithoutIpKeepsDistinct(registry, serverId);
      if HasIp(registry, serverId) {
        var i :| 0 <= i < |registry| && registry[i].ipAddress == serverId;
        WithoutPresentIp(registry, serverId, i);
      } else {
        WithoutAbsentIp(registry, serverId);
      }
      registry := remaining;
      if !removed {
        return Fail(IllegalArgumentException("Server with ID " + serverId + " not found in the registry"));
      }
      r := Pass;
    }

    /** removeAllServer: empties the registry and, as in the source, leaves
        the cursor where it was. */
    method RemoveAllServer()
      requires Valid()
      modifies this`registry
      ensures Valid()
      ensures registry == [] && currentIndex == old(currentIndex)
    {
      registry := [];
    }

    /** getServer: takes the old cursor as the index, advances the cursor modulo
        the registry size, and returns the server at that index only if it is
        healthy; it never tries another server. An index past the end (a cursor
        left stale by removals) finds nothing and throws. */
    method GetServer() returns (r: Result<Server, Exception>)
      requires Valid()
      modifies this`currentIndex
      ensures Valid() && registry == old(registry)
      ensures |registry| == 0 ==> r == Failure(NoServersAvailable) && currentIndex == old(currentIndex)
      ensures |registry| > 0 ==> currentIndex == Advance(old(currentIndex), |registry|)
      ensures |registry| > 0 ==>
        if old(currentIndex) < |registry| && registry[old(currentIndex)].health
        then r == Success(registry[old(currentIndex)])
        else r == Failure(NoHealthyServers)
    {
      if |registry| == 0 {
        return Failure(NoServersAvailable);
      }
      var index := currentIndex;
      currentIndex := Advance(currentIndex, |registry|);
      // the for-each over the registry, with its position counter
      var i := 0;
      while i < |registry|
        invariant 0 <= i <= |registry|
        invariant index < i ==> !registry[index].health
      {
        var server := registry[i];
        if i == index && server.IsHealthy() {
          return Success(server);
        }
        i := i + 1;
      }
      r := Failure(NoHealthyServers);
    }

    /** releaseServer: the interface's default, which does nothing. */
    method ReleaseServer(server: Server)
      ensures unchanged(this, server)
    {
    }
  }
}
