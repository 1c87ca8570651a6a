/** The authored topology: Tiers, and the Services whose Paths run through
    them (internal/renderer/renderer.go). */
module Topologies {
  type Attributes = map<string, string>

  /** A Path names the Tiers it goes through, nearest the Service first. */
  type Path = seq<string>

  /** `binding` is the id of the bound Blueprint. */
  datatype Tier = Tier(id: string, environment: string, selector: Attributes, binding: string)

  datatype Service = Service(id: string, class_: string, paths: seq<Path>)

  datatype Topology = Topology(tiers: map<string, Tier>, services: map<string, Service>)

  /** Loaded topologies key every Tier and Service by its own id. */
  ghost predicate Keyed(topo: Topology) {
    && (forall id :: id in topo.tiers ==> topo.tiers[id].id == id)
    && (forall id :: id in topo.services ==> topo.services[id].id == id)
  }
}
