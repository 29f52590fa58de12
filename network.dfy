/** What the routing unit reads from its router and network: the route a
    packet carries, the configured routing algorithm, and the network's
    shape. The simulator reads these through accessors of the router and
    the network; here they are values passed in. */
module Network {

  /** The routing information a packet carries. */
  datatype RouteInfo = RouteInfo(
    vnet: int,              // virtual network
    netDest: set<int>,      // destination set (NetDest), as node ids
    destRouter: int,        // destination router id
    hopsTraversed: int)     // routers passed so far

  /** The routing-algorithm selector. `Other` stands for any selector value
      outside the named ones. */
  datatype RoutingAlgorithm =
    | Table | XY | Custom | Ring
    | Torus2DD | Torus3DD
    | ShortXY | ShortXYZ
    | Torus2D2 | Torus3D2
    | Other(code: int)

  /** The network-wide parameters routing consults. */
  datatype NetworkParams = NetworkParams(
    numRows: int,
    numCols: int,
    numRouters: int,
    xLength: int,
    yLength: int,
    zLength: int,
    algorithm: RoutingAlgorithm,
    orderedVnets: set<int>)   // the vnets for which isVNetOrdered holds
}
