/** Storage pools and backends as the scheduler of csi/backend/backend.go sees them. */
module StoragePools {
  import opened Basics
  import opened Strconv
  import Topology

  /** The parts of a storage plugin that selection asks for: whether it accepts QoS parameters, whether
      it is the DME A-series plugin, and the parent that it gives DTree volumes. */
  datatype Plugin = Plugin(acceptsQos: string -> bool, isDmeASeries: bool, dtreeParent: string)

  /** `model.StoragePool`. Only the capacities change after a pool is built. */
  class StoragePool {
    const name: string
    const storage: string
    const parent: string
    const capabilities: map<string, bool>
    const plugin: Plugin
    var capacities: map<string, string>

    constructor (name: string, storage: string, parent: string, capabilities: map<string, bool>, plugin: Plugin,
                 capacities: map<string, string>)
      ensures this.name == name && this.storage == storage && this.parent == parent
      ensures this.capabilities == capabilities && this.plugin == plugin && this.capacities == capacities
    {
      this.name, this.storage, this.parent := name, storage, parent;
      this.capabilities, this.plugin, this.capacities := capabilities, plugin, capacities;
    }

    predicate Has(capability: string) { capability in capabilities && capabilities[capability] }

    /** The free capacity, as the scheduler reads it: 0 if it is missing or is not a number. */
    function Free(): int
      reads this
    {
      if FREE in capacities then ParseIntOrZero(capacities[FREE]) else 0
    }
  }

  const FREE := "FreeCapacity"

  /** What the cache holds of a backend: its topologies, its pools, the pools of its metro backend if it
      has one, and whether it has a replica backend. */
  datatype Backend = Backend(
    supportedTopologies: seq<Topology.Labels>, pools: seq<StoragePool>, metroPools: Option<seq<StoragePool>>,
    hasReplica: bool)

  type Cache = map<string, Backend>
}
