/** A fleet vehicle: capacity, fleet restrictions and cost factors
    (vrp_solver/models/vehicle.py). The display name, driver, type tag and
    the unused start-time string are not part of this model. */
module Vehicles {

  datatype Vehicle = Vehicle(
    id: string,
    capacityCbm: real,
    allowedStoreIds: set<string>,
    forbiddenStoreIds: set<string>,
    maxRouteDurationHours: real,
    fixedCost: real,
    costPerKm: real)
  {
    /** A forbidden store is never served; an empty allow-list allows every other store. */
    predicate CanServeStore(storeId: string)
      ensures storeId in forbiddenStoreIds ==> !CanServeStore(storeId)
      ensures allowedStoreIds == {} ==> (CanServeStore(storeId) <==> storeId !in forbiddenStoreIds)
      ensures allowedStoreIds != {} ==>
                (CanServeStore(storeId) <==> storeId in allowedStoreIds && storeId !in forbiddenStoreIds)
    {
      if storeId in forbiddenStoreIds then false
      else if allowedStoreIds != {} then storeId in allowedStoreIds
      else true
    }

    /** The extra demand fits on top of the current load. */
    predicate CanFitDemand(demandCbm: real, currentLoad: real)
    {
      currentLoad + demandCbm <= capacityCbm
    }

    /** Headroom left by the current load, never negative. */
    function GetRemainingCapacity(currentLoad: real): (r: real)
      ensures r >= 0.0
      ensures currentLoad <= capacityCbm ==> r == capacityCbm - currentLoad
      ensures currentLoad > capacityCbm ==> r == 0.0
    {
      if 0.0 > capacityCbm - currentLoad then 0.0 else capacityCbm - currentLoad
    }
  }

  /** The remaining capacity is exactly the largest extra demand that still fits. */
  lemma RemainingCapacityIsLargestFit(v: Vehicle, load: real, d: real)
    requires 0.0 <= d && load <= v.capacityCbm
    ensures v.CanFitDemand(d, load) <==> d <= v.GetRemainingCapacity(load)
  {
  }
}
