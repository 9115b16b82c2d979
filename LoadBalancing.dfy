/** What the two strategies share, each writing it out on its own
    (service/RoundRobinLoadBalancer.java and
    service/LeastConnectionLoadBalancer.java): the capacity bound and the
    exceptions they throw. */
module LoadBalancing {

  /** Both registries refuse an eleventh server. */
  const MaxServers: nat := 10

  /** The two Java exception classes the balancers throw, with their messages. */
  datatype Exception =
    | IllegalStateException(message: string)
    | IllegalArgumentException(message: string)

  const RegistryFull: Exception := IllegalStateException("Server registry is full")
  const NoServersAvailable: Exception := IllegalStateException("No servers available")
  const NoHealthyServers: Exception := IllegalStateException("No healthy servers available")
}
