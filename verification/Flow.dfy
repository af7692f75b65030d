/** The parts of a flow message that services and links are made from. */
module Flows {
  import opened Wrappers

  type uint32 = n: nat | n < 0x1_0000_0000

  datatype Workload = Workload(name: string, kind: string)

  // isWorld says whether the labels of the endpoint include reserved:world.
  datatype Endpoint = Endpoint(identity: uint32, isWorld: bool, workloads: seq<Workload>)

  // What the getters of a missing endpoint answer.
  const NO_ENDPOINT := Endpoint(0, false, [])

  datatype L4 = TCP(destinationPort: uint32) | UDP(destinationPort: uint32) | ICMPv4 | ICMPv6 | Other

  datatype Flow = Flow(
    source: Option<Endpoint>,
    destination: Option<Endpoint>,
    sourceNames: seq<string>,
    destinationNames: seq<string>,
    l4: Option<L4>,
    verdict: int,
    authType: int,
    encrypted: bool)

  function EndpointOf(e: Option<Endpoint>): Endpoint {
    match e
    case None => NO_ENDPOINT
    case Some(endpoint) => endpoint
  }
}
