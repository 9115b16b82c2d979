# Load balancers and URL shortener of Osayi-Joy/coding_challenges, in Dafny

This project models two parts of the repository.

The first part is the load balancer. A `Server` record is a mutable object with a fixed IP address, a health flag and an active-connection counter. Two strategies hand servers out:

- **Round robin** keeps an insertion-ordered registry of at most 10 servers with distinct addresses, plus a cursor. `getServer` serves the position under the old cursor and moves the cursor on modulo the registry size. If the server there is unhealthy, or the cursor is stale, it throws; it never falls back to another server.
- **Least connections** keeps an address-keyed map of at most 10 servers. `getServer` picks a server with the smallest active-connection count and adds one to that count. `releaseServer` takes one off, with no floor at zero.

The second part is the URL shortener. It keeps three maps: short code to long URL, long URL to code, and keyword to long URL. Shortening the same long URL twice gives the same short URL. A new code is drawn until one is unused. The keyword variant refuses a null, empty or already used keyword. `getLongUrl` strips the base URL and looks up what remains.

Files:

- `Wrappers.dfy`: `Option`, `Outcome` and `Result`, which carry the Java exceptions as values.
- `Server.dfy` (module `Servers`): the `Server` class. Java `int` is `Int32`, and `++`/`--` wrap explicitly at the ends of the range.
- `LoadBalancing.dfy`: what the two strategies share, each writing it out separately in its own class: the registry bound of 10, the exception type and the exact messages.
- `RoundRobin.dfy` and `LeastConnection.dfy`: the two strategies, as classes whose methods update the registry in place, with lemmas about the functions that specify them.
- `LoadBalancerScenarios.dfy`: runs of the two balancers, proved from the method contracts alone. Some are the runs in the repository's tests; others show edge cases of the source (a stale cursor, an unhealthy server, a release without an acquisition, repeated calls over a full round).
- `UrlShortener.dfy` (module `UrlShortening`) and `UrlShortenerScenarios.dfy`: the shortener class, its string-stripping function, the round-trip lemmas and the runs from its tests.

Each public Java method is modelled as one sequential atomic step. Exceptions are modelled as `Fail`/`Failure` values carrying the exception class and the source's exact message.

## Model

| member | source | states |
|---|---|---|
| Servers.WrapInt32 | src/main/java/org/osayijoy/load_balancer/model/Server.java:54-60 | The Java `int` result of `++`/`--`. It agrees with the exact result modulo 2^32 and equals it whenever that result is in range. |
| Servers.IncrementThenDecrement | src/main/java/org/osayijoy/load_balancer/model/Server.java:54-60 | An increment followed by a decrement, in either order, restores the original count for every `int`, including at the wrap-around. |
| Servers.IncrementExact | src/main/java/org/osayijoy/load_balancer/model/Server.java:54-56 | Below `Integer.MAX_VALUE` an increment adds exactly one. At the maximum it wraps to `Integer.MIN_VALUE`. |
| Servers.Server.constructor | src/main/java/org/osayijoy/load_balancer/model/Server.java:19-24 | The one-argument server has the given address, capacity 0, weight 0 and 0 connections, and is healthy. |
| Servers.Server.WithCapacity | src/main/java/org/osayijoy/load_balancer/model/Server.java:10-16 | The two-argument server stores the given capacity. Otherwise it starts like the one-argument server. |
| Servers.Server.IsHealthy | src/main/java/org/osayijoy/load_balancer/model/Server.java:42-44 | `isHealthy()` reads the health flag. It is a plain read, with no contract of its own; `SetHealth` and round-robin `GetServer` state what it returns. |
| Servers.Server.SetHealth | src/main/java/org/osayijoy/load_balancer/model/Server.java:42-48 | Afterwards `isHealthy()` returns the value set. Only the health field may change. |
| Servers.Server.SetCurrentWeight | src/main/java/org/osayijoy/load_balancer/model/Server.java:34-36 | Only `currentWeight` changes, and it becomes the value given. |
| Servers.Server.IncrementActiveConnections | src/main/java/org/osayijoy/load_balancer/model/Server.java:54-56 | The count goes up by exactly one, with Java wrap-around at the top. No other field changes. |
| Servers.Server.DecrementActiveConnections | src/main/java/org/osayijoy/load_balancer/model/Server.java:58-60 | The count goes down by exactly one with no floor at zero, so it can become negative; it wraps only at `Integer.MIN_VALUE`. No other field changes. |
| RoundRobin.HasIp | src/main/java/org/osayijoy/load_balancer/service/RoundRobinLoadBalancer.java:33 | The `anyMatch` duplicate test: some registered server has the address. It is a plain definition; `RemovedIffPresent` relates it to `removeIf`. |
| RoundRobin.RemovedIffPresent | src/main/java/org/osayijoy/load_balancer/service/RoundRobinLoadBalancer.java:33-42 | `removeIf` reports a removal if and only if `anyMatch` finds the address. The duplicate check of `addServer` and the not-found check of `removeServer` therefore agree. |
| RoundRobin.WithoutIp | src/main/java/org/osayijoy/load_balancer/service/RoundRobinLoadBalancer.java:41 | `removeIf` on an address leaves no server with that address and never lengthens the registry. |
| RoundRobin.WithoutIpMember | src/main/java/org/osayijoy/load_balancer/service/RoundRobinLoadBalancer.java:41 | A server survives `removeIf` if and only if it was registered and has another address. |
| RoundRobin.WithoutAbsentIp | src/main/java/org/osayijoy/load_balancer/service/RoundRobinLoadBalancer.java:41-44 | Removing an address that no server has leaves the registry exactly as it was. |
| RoundRobin.WithoutPresentIp | src/main/java/org/osayijoy/load_balancer/service/RoundRobinLoadBalancer.java:41 | With unique addresses, removing the address held at position i deletes exactly that entry. The others keep their order. |
| RoundRobin.WithoutIpKeepsDistinct | src/main/java/org/osayijoy/load_balancer/service/RoundRobinLoadBalancer.java:33-41 | Removal preserves the invariant that addresses are unique. |
| RoundRobin.Advance | src/main/java/org/osayijoy/load_balancer/service/RoundRobinLoadBalancer.java:58 | The cursor update `(current + 1) % size` always lands in range. It steps by one, and wraps to 0 at the end. |
| RoundRobin.CursorAfterRound | src/main/java/org/osayijoy/load_balancer/service/RoundRobinLoadBalancer.java:58 | From an in-range cursor, the k-th call of a round serves position cursor + k, wrapped once past the end. |
| RoundRobin.FullRoundReturns | src/main/java/org/osayijoy/load_balancer/service/RoundRobinLoadBalancer.java:58 | After as many calls as there are servers, the cursor is back where it started. |
| RoundRobin.CallServing | src/main/java/org/osayijoy/load_balancer/service/RoundRobinLoadBalancer.java:58-64 | Every position is served by some call within one round. |
| RoundRobin.RoundServesEachOnce | src/main/java/org/osayijoy/load_balancer/service/RoundRobinLoadBalancer.java:58-64 | No position is served twice within one round. |
| RoundRobin.RoundRobinLoadBalancer.constructor | src/main/java/org/osayijoy/load_balancer/service/RoundRobinLoadBalancer.java:10-14 | A new balancer has an empty registry and cursor 0. |
| RoundRobin.RoundRobinLoadBalancer.AddServer | src/main/java/org/osayijoy/load_balancer/service/RoundRobinLoadBalancer.java:28-37 | A full registry throws `IllegalStateException("Server registry is full")`, and that check comes first. A duplicate address throws `IllegalArgumentException`. Otherwise the server is appended. Failures change nothing. At most 10 servers and unique addresses are preserved. |
| RoundRobin.RoundRobinLoadBalancer.RemoveServer | src/main/java/org/osayijoy/load_balancer/service/RoundRobinLoadBalancer.java:40-45 | It succeeds if and only if a server has the address, and it deletes exactly that server, keeping the others in order. Otherwise it throws the source's message and the registry is unchanged. |
| RoundRobin.RoundRobinLoadBalancer.RemoveAllServer | src/main/java/org/osayijoy/load_balancer/service/RoundRobinLoadBalancer.java:48-50 | The registry becomes empty and the cursor is left where it was. |
| RoundRobin.RoundRobinLoadBalancer.GetServer | src/main/java/org/osayijoy/load_balancer/service/RoundRobinLoadBalancer.java:53-68 | An empty registry throws "No servers available" and leaves the cursor alone. Otherwise the cursor becomes `(old + 1) % size`. The result is the server at the old cursor if that position exists and is healthy; otherwise it throws "No healthy servers available". It changes no server and no registry entry. |
| RoundRobin.RoundRobinLoadBalancer.ReleaseServer | src/main/java/org/osayijoy/load_balancer/service/LoadBalancer.java:12 | The interface's default release changes neither the balancer nor the server. |
| LeastConnection.AcquireKeepsBalance | src/main/java/org/osayijoy/load_balancer/service/LeastConnectionLoadBalancer.java:54-58 | If no count exceeds another by more than one, giving the new connection to a least-loaded server keeps it that way. |
| LeastConnection.IdleServerChosenFirst | src/main/java/org/osayijoy/load_balancer/service/LeastConnectionLoadBalancer.java:54-58 | While some server is idle and the busy ones hold one connection each, the least-loaded pick is an idle server, and afterwards it holds one connection. |
| LeastConnection.TotalWithout | src/main/java/org/osayijoy/load_balancer/service/LeastConnectionLoadBalancer.java:54-58 | The sum of the counts can be split at any registered server, whatever order the map is visited in. |
| LeastConnection.AcquireAddsOne | src/main/java/org/osayijoy/load_balancer/service/LeastConnectionLoadBalancer.java:56-58 | An acquisition adds exactly one to the total number of active connections. |
| LeastConnection.LeastConnectionLoadBalancer.Counts | src/main/java/org/osayijoy/load_balancer/service/LeastConnectionLoadBalancer.java:11 | The map of active-connection counts covers exactly the registered addresses. |
| LeastConnection.LeastConnectionLoadBalancer.constructor | src/main/java/org/osayijoy/load_balancer/service/LeastConnectionLoadBalancer.java:11-14 | A new balancer has an empty registry. |
| LeastConnection.LeastConnectionLoadBalancer.AddServer | src/main/java/org/osayijoy/load_balancer/service/LeastConnectionLoadBalancer.java:24-34 | A full registry throws `IllegalStateException`, checked first. An address already present throws `IllegalArgumentException`. Otherwise the address maps to the server. Failures change nothing. At most 10 entries, each keyed by its server's own address. |
| LeastConnection.LeastConnectionLoadBalancer.RemoveServer | src/main/java/org/osayijoy/load_balancer/service/LeastConnectionLoadBalancer.java:37-41 | The address's entry is removed. An absent address changes nothing and does not throw. |
| LeastConnection.LeastConnectionLoadBalancer.RemoveAllServer | src/main/java/org/osayijoy/load_balancer/service/LeastConnectionLoadBalancer.java:44-46 | The registry becomes empty. |
| LeastConnection.LeastConnectionLoadBalancer.LeastLoaded | src/main/java/org/osayijoy/load_balancer/service/LeastConnectionLoadBalancer.java:54-55 | The stream minimum is a registered server whose count is no larger than any other registered server's. |
| LeastConnection.LeastConnectionLoadBalancer.GetServer | src/main/java/org/osayijoy/load_balancer/service/LeastConnectionLoadBalancer.java:49-62 | An empty registry throws "No servers available"; a non-empty one always succeeds. The server returned is registered and least-loaded before the call. Its count goes up by one and every other count stays the same. The registry is unchanged. |
| LeastConnection.LeastConnectionLoadBalancer.ReleaseServer | src/main/java/org/osayijoy/load_balancer/service/LeastConnectionLoadBalancer.java:64-68 | The server's count goes down by one with no clamp at zero. The server need not be registered. |
| LoadBalancerScenarios.RoundRobinOrder | src/test/java/org/osayijoy/load_balancer/service/RoundRobinLoadBalancerTest.java:56-69 | With A, B, C registered on a new balancer, five calls serve A, B, C, A, B. |
| LoadBalancerScenarios.RepeatedCalls | src/main/java/org/osayijoy/load_balancer/service/RoundRobinLoadBalancer.java:53-68 | Over n calls on an unchanged registry, the cursor ends at `CursorAfter(start, size, n)`. Call k returns the healthy server under `CursorAfter(start, size, k)`, or throws. In a full round from an in-range cursor, every position is served by the call `CallServing` names. This ties the cursor lemmas to the class. |
| LoadBalancerScenarios.FirstRegisteredServedFirst | src/test/java/org/osayijoy/load_balancer/service/RoundRobinLoadBalancerTest.java:18-27 | On a new balancer the first call serves the first server registered. The test expects the second one, which holds only when an earlier test has left the shared cursor at 1. |
| LoadBalancerScenarios.StaleCursorAfterClear | src/main/java/org/osayijoy/load_balancer/service/RoundRobinLoadBalancer.java:48-67 | A cursor left at 2 by a clear makes the next call on a one-server registry throw. The call after that serves the server. |
| LoadBalancerScenarios.UnhealthyIsNotSkipped | src/main/java/org/osayijoy/load_balancer/service/RoundRobinLoadBalancer.java:58-67 | An unhealthy server under the cursor makes the call throw, even though a healthy server sits next to it. The next call serves that neighbour. |
| LoadBalancerScenarios.RoundRobinRemoveThenGet | src/test/java/org/osayijoy/load_balancer/service/RoundRobinLoadBalancerTest.java:46-53 | Removing the only server leaves a registry on which `getServer` throws "No servers available". |
| LoadBalancerScenarios.AcquireCounted | src/main/java/org/osayijoy/load_balancer/service/LeastConnectionLoadBalancer.java:49-60 | One real `getServer` call, unless the chosen count is already `Integer.MAX_VALUE`: the sum of the counts grows by exactly one, and a balanced load stays balanced. On an empty registry no count changes. This applies `AcquireAddsOne` and `AcquireKeepsBalance` to the class. |
| LoadBalancerScenarios.AcquireIdle | src/main/java/org/osayijoy/load_balancer/service/LeastConnectionLoadBalancer.java:54-58 | While servers are idle and the busy ones hold one connection each, `getServer` picks an idle server. |
| LoadBalancerScenarios.ThreeIdleServers | src/test/java/org/osayijoy/load_balancer/service/LeastConnectionLoadBalancerTest.java:86-91 | Registering three new servers gives three entries, each with count 0. |
| LoadBalancerScenarios.LeastConnectionBalancesLoad | src/test/java/org/osayijoy/load_balancer/service/LeastConnectionLoadBalancerTest.java:84-104 | With three new servers, three calls return three distinct servers. |
| LoadBalancerScenarios.LeastConnectionAcquireRelease | src/test/java/org/osayijoy/load_balancer/service/LeastConnectionLoadBalancerTest.java:71-82 | Acquiring the one registered server gives it one connection; releasing it brings it back to 0. |
| LoadBalancerScenarios.ReleaseWithoutAcquire | src/main/java/org/osayijoy/load_balancer/service/LeastConnectionLoadBalancer.java:64-68 | Releasing a server that was never acquired leaves its count at -1. |
| LoadBalancerScenarios.LeastConnectionRemoveThenGet | src/test/java/org/osayijoy/load_balancer/service/LeastConnectionLoadBalancerTest.java:43-50 | Removing the only server leaves a registry on which `getServer` throws "No servers available". |
| UrlShortening.RemoveAll | src/main/java/org/osayijoy/url_shortener/service/UrlShortener.java:132 | `String.replace(target, "")`, scanning left to right without overlaps, never lengthens the string. |
| UrlShortening.RemoveAllWithoutOccurrence | src/main/java/org/osayijoy/url_shortener/service/UrlShortener.java:132 | A string that does not contain the target comes back unchanged. |
| UrlShortening.StripBaseUrl | src/main/java/org/osayijoy/url_shortener/service/UrlShortener.java:132 | Stripping the base URL from base URL + key gives back key, provided key does not itself contain the base URL. |
| UrlShortening.ShorterThanBaseUrl | src/main/java/org/osayijoy/url_shortener/service/UrlShortener.java:21 | A key shorter than the base URL, such as any 8-character code, cannot contain it. |
| UrlShortening.StrippedKeyIsShorter | src/main/java/org/osayijoy/url_shortener/service/UrlShortener.java:132-133 | The lookup key derived from base URL + key is never base URL + key itself: the leading base URL is always removed. |
| UrlShortening.RecordFreshKey | src/main/java/org/osayijoy/url_shortener/service/UrlShortener.java:43-44 | Recording a fresh code in both maps keeps every long URL's code pointing back to it. |
| UrlShortening.UrlShortener.constructor | src/main/java/org/osayijoy/url_shortener/service/UrlShortener.java:22-27 | A new shortener has empty maps and counter 0. |
| UrlShortening.UrlShortener.ValidateUrl | src/main/java/org/osayijoy/url_shortener/service/UrlShortener.java:120-129 | Validation passes if and only if the URL is non-null, non-empty and well formed. A failure is one of the two source messages, and the null/empty check comes first. |
| UrlShortening.UrlShortener.ShortenUrl | src/main/java/org/osayijoy/url_shortener/service/UrlShortener.java:29-50 | An invalid URL throws and changes nothing. A known URL returns base URL + its existing code and changes nothing. Otherwise codes are drawn until an unused one comes up, and that code is recorded in both directions. The result always starts with the base URL, and the round-trip invariant is preserved. |
| UrlShortening.UrlShortener.DrawUnusedCode | src/main/java/org/osayijoy/url_shortener/service/UrlShortener.java:38-41 | The retry loop returns the first drawn code that is not a short-URL key. Every earlier draw was a key already, and each draw advances the counter. |
| UrlShortening.UrlShortener.ShortenUrlWithKeyword | src/main/java/org/osayijoy/url_shortener/service/UrlShortener.java:72-102 | An invalid URL, a null or empty keyword, or a keyword already in use throws and changes nothing. Otherwise the result is base URL + keyword. If the URL's code already equals the keyword, nothing changes. Otherwise it records keyword ↦ URL, base URL + keyword ↦ URL and URL ↦ keyword. |
| UrlShortening.UrlShortener.ShortenUrlWithKeywordCorrected | src/main/java/org/osayijoy/url_shortener/service/UrlShortener.java:72-102 | The keyword variant keyed as `getLongUrl` looks it up. It keeps the source's refusals in the source's order and the early return at lines 88-91. It then refuses two more keywords: one that is already a short-URL key, as in use, and one that contains the base URL. Otherwise it records keyword ↦ URL in the short-URL map. A short URL it records resolves back to the long URL from any state. A short URL from the early return resolves back whenever the round-trip invariant held. It preserves that invariant for every keyword. |
| UrlShortening.UrlShortener.GetLongUrl | src/main/java/org/osayijoy/url_shortener/service/UrlShortener.java:131-138 | A success is a recorded long URL. The only failure is "Short URL not found". |
| UrlShortening.UrlShortener.IssuedShortUrlResolves | src/main/java/org/osayijoy/url_shortener/service/UrlShortener.java:43-46 | Round trip: looking up the short URL issued for a long URL returns that long URL. |
| UrlShortening.UrlShortener.IssuedShortUrlsDistinct | src/main/java/org/osayijoy/url_shortener/service/UrlShortener.java:39-44 | Distinct long URLs hold distinct short URLs. |
| UrlShortenerScenarios.FreshShortener | src/test/java/org/osayijoy/url_shortener/service/UrlShortenerTest.java:16 | A new shortener satisfies the round-trip invariant, and any generator finds a fresh code on its first draw. |
| UrlShortenerScenarios.ShortenThenResolve | src/test/java/org/osayijoy/url_shortener/service/UrlShortenerTest.java:18-47 | A shortened URL starts with the base URL and resolves back to the original. |
| UrlShortenerScenarios.ShortenTwice | src/test/java/org/osayijoy/url_shortener/service/UrlShortenerTest.java:59-69 | Shortening the same URL twice gives the same short URL. |
| UrlShortenerScenarios.ShortenTwoUrls | src/test/java/org/osayijoy/url_shortener/service/UrlShortenerTest.java:71-80 | Two different URLs get different short URLs for any generator that eventually draws, for the second URL, a code other than the first URL's. A colliding draw is simply drawn again. |
| UrlShortenerScenarios.RefusedInputs | src/test/java/org/osayijoy/url_shortener/service/UrlShortenerTest.java:179-204 | A null URL, a null keyword, an empty keyword and a keyword already in use are each refused with the source's message. |
| UrlShortenerScenarios.KeywordShortUrlUnresolved | src/main/java/org/osayijoy/url_shortener/service/UrlShortener.java:86-97 | As written: `shortenUrl(u, "test")` returns "http://base.url/test" (the test at UrlShortenerTest.java:206-214 expects this), but looking that URL up throws "Short URL not found". |
| UrlShortenerScenarios.KeywordShortUrlResolvedWhenCorrected | src/main/java/org/osayijoy/url_shortener/service/UrlShortener.java:131-138 | With the corrected keyword variant, the same call returns the same short URL, and looking it up gives the long URL back. |
| UrlShortenerScenarios.KeywordEqualToOtherUrlsCode | src/main/java/org/osayijoy/url_shortener/service/UrlShortener.java:81-97 | As written: a keyword equal to the code issued for another URL is accepted. Its short URL resolves through that code's entry to the other URL, not to the URL just shortened. |
| UrlShortenerScenarios.KeywordEqualToOtherUrlsCodeRefusedWhenCorrected | src/main/java/org/osayijoy/url_shortener/service/UrlShortener.java:81-84 | The corrected keyword variant refuses that keyword as already in use. |
| UrlShortenerScenarios.KeywordEqualToIssuedCodeWhenCorrected | src/main/java/org/osayijoy/url_shortener/service/UrlShortener.java:88-91 | The corrected variant keeps the early return: the URL's own code as keyword gives that code's short URL, which resolves to the URL. |
| UrlShortenerScenarios.KeywordContainingBaseUrlRefusedWhenCorrected | src/main/java/org/osayijoy/url_shortener/service/UrlShortener.java:131-133 | The corrected variant refuses the keyword "http://base.url/x". The stripping in `getLongUrl` would cut its short URL down to "x". |
| UrlShortenerScenarios.KeywordEqualToIssuedCode | src/main/java/org/osayijoy/url_shortener/service/UrlShortener.java:88-91 | The early return is reachable. If the keyword equals the code already issued for the URL, the call returns base URL + keyword and records no keyword. |

## Left out

- Concurrency is not modelled: the `synchronized` blocks, the `ReentrantLock`, `AtomicInteger`/`AtomicLong` and the thread-safety of the concurrent collections. Each public method is treated as one atomic step, and the multi-threaded tests are not modelled.
- The `getInstance` singletons are not modelled; balancers are constructed directly. That shared instance is what carries the cursor from one test to the next (see `FirstRegisteredServedFirst`).
- The `LoadBalancer` interface is not a Dafny type. The two classes expose the same methods over the shared `LoadBalancing` module, and the round-robin `ReleaseServer` is the interface's default no-op.
- Server getters other than `isHealthy` are not separate members: `ipAddress` and `capacity` are immutable fields, and the other fields are read directly.
- SHA-256 and Base64 in `generateShortUrl` are not modelled. The generator is a constructor parameter from (long URL, attempt number) to an 8-character code, and the model keeps its own attempt counter.
- The `java.net.URL` parse in `validateUrl` is not modelled: it is the predicate `isWellFormed`, and only the null/empty check is concrete.
- `UrlShortener.main` is console I/O and is not modelled.
- UrlShortening.UrlShortener.DrawUnusedCode: the loop it models (lines 38-41 of UrlShortener.java) has no bound in the source, so the method requires that some later draw yields an unused code.
- UrlShortening.UrlShortener.ShortenUrl: the retry loop has no bound in the source. The model requires that some later draw yields an unused code. The static `AtomicLong` counter becomes a per-instance counter without 64-bit wrap-around.
- Null arguments to the balancers are not modelled: `addServer(null)`, a null address passed to `containsKey`/`remove` (LeastConnectionLoadBalancer.java:29, 39), and a server with a null address reaching `getIpAddress().equals` (RoundRobinLoadBalancer.java:33, 41). All of them throw `NullPointerException` in the source; in the model, servers and addresses are never null.
- UrlShortening.UrlShortener.ShortenUrlWithKeywordCorrected: the refusal of a keyword that contains the base URL is not in the source. Its message, "Keyword cannot contain the base URL", is this model's own. When the early return is taken, nothing is recorded. The round trip then holds only if the existing code entry resolved, so that case requires the invariant `CodesResolve`.
- UrlShortening.UrlShortener.GetLongUrl: `getLongUrl(null)` throws `NullPointerException` in the source; the model takes a non-null string.
- UrlShortening.UrlShortener.IssuedShortUrlResolves: it requires the round-trip invariant `CodesResolve`. That holds for any shortener on which only `shortenUrl(u)`, and the corrected keyword variant with keywords that do not contain the base URL, have run; the keyword variant as written breaks it (see Findings).
- LeastConnection.LeastConnectionLoadBalancer.GetServer: ties are broken by the map's iteration order, which is left open. It states "some least-loaded server", not which one. The test at LeastConnectionLoadBalancerTest.java:52-64 expects the same server after acquire, release, acquire, which follows only from `ConcurrentHashMap`'s fixed iteration order and not from this contract.
- `capacity` and `currentWeight` are stored but have no meaning in either strategy, as in the source.

## Findings

| source | as written | input that shows it | evidently intended | confidence | as-written member | corrected member |
|---|---|---|---|---|---|---|
| src/main/java/org/osayijoy/url_shortener/service/UrlShortener.java:94 | The keyword variant stores the short-URL entry under `BASE_URL + keyword`. But `getLongUrl` strips `BASE_URL` and looks up the bare remainder (lines 132-133), so a keyword short URL never resolves through the entry recorded at line 94. If the keyword happens to be a generated code, the short URL resolves through that code's entry, to that code's long URL, which can belong to another URL (`KeywordEqualToOtherUrlsCode`). | `shortenUrl("http://example.com", "test")` returns "http://base.url/test"; `getLongUrl("http://base.url/test")` then throws "Short URL not found" | The entry is keyed by the keyword, so the keyword short URL resolves back to its own long URL, as a generated code does. The early return at lines 88-91 stays (`KeywordEqualToIssuedCodeWhenCorrected`). The corrected variant also refuses a keyword that is already a short-URL key, which closes the other-URL case (`KeywordEqualToOtherUrlsCodeRefusedWhenCorrected`). It also refuses a keyword that contains the base URL, which the stripping would cut apart (`KeywordContainingBaseUrlRefusedWhenCorrected`) | not executed | UrlShortenerScenarios.KeywordShortUrlUnresolved | UrlShortening.UrlShortener.ShortenUrlWithKeywordCorrected |

There are two more observations about the same method; they are not listed as findings:

- The early return at lines 88-91 is reachable. It is taken when the keyword equals the generated code already recorded for that URL; the keyword map only holds keywords, not generated codes. `KeywordEqualToIssuedCode` shows it.
- After a keyword call, `urlMappingByLongUrl` maps the URL to the keyword. A later `shortenUrl(u)` then returns base URL + keyword, which does not resolve either.
