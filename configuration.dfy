/** The simulated cluster: a free-node counter that the simulator and the
    shutdown schedulers update in place, and the hardware and economic
    constants that the power formula and the failure model read. */
module Configuration {

  /** Static parameters of a cluster.  `cpuFrequencyPower` is indexed by
      P-state; the power formula reads P-state 4, so the table has at least
      five entries. */
  datatype ClusterConfig = ClusterConfig(
    processorsPerNode: real,
    cpuFrequencyPower: seq<real>,
    nodePowerConsumption: real,
    infrastructurePowerConsumption: real,
    nodeMinRepairTime: int)
  {
    predicate Valid() { |cpuFrequencyPower| >= 5 }
  }

  class Cluster {
    /** Currently free (advertised) nodes. */
    var nodes: int
    const config: ClusterConfig

    constructor (nodes: int, config: ClusterConfig)
      ensures this.nodes == nodes && this.config == config
    {
      this.nodes := nodes;
      this.config := config;
    }
  }
}
