/** The static scenario of the tycoon simulation: locations, vehicles, legs,
    routes, the delivery plan, the domain events the engine emits, and the
    first-match lookups the engine performs on them. */
module Domain {
  import opened Wrappers

  /** The elapsed-time unit of the simulation (an hour). */
  type Hours = int

  datatype Location = Factory | Port | WarehouseA | WarehouseB

  datatype VehicleType = Ship | Truck

  datatype Cargo = A | B

  /** Two vehicles are the same key exactly when name and type agree. */
  datatype Vehicle = Vehicle(name: string, vehicleType: VehicleType)

  /** One directed, timed hop that only a vehicle of `requiredType` may drive. */
  datatype Leg = Leg(requiredType: VehicleType, from: Location, to: Location, duration: Hours)

  /** The legs of a route, in the order they were declared. */
  datatype Route = Route(legs: seq<Leg>)

  type Network = seq<Route>

  datatype CargoDelivery = CargoDelivery(cargo: Cargo, from: Location, to: Location)

  /** The deliveries in plan order; its size is the number of deliveries. */
  type Plan = seq<CargoDelivery>

  datatype Event =
    | VehicleDeparted(cargo: Cargo, vehicle: Vehicle, from: Location, to: Location, elapsedTime: Hours, estimatedTimeForThisLeg: Hours)
    | VehicleArrived(cargo: Cargo, vehicle: Vehicle, from: Location, to: Location, elapsedTime: Hours, elapsedTimeForThisLeg: Hours)
    | VehicleStartedWaitingForCargo(vehicle: Vehicle, at: Location)
    | VehicleStoppedWaitingForCargo(vehicle: Vehicle, at: Location)
    | CargoDeliveryStarted(cargo: Cargo, origin: Location, destination: Location, elapsedTime: Hours)
    | CargoWasDeliveredToDestination(cargo: Cargo, vehicle: Vehicle, origin: Location, destination: Location, elapsedTime: Hours)
    | AllCargoHasBeenDelivered(elapsedTime: Hours)
    | TimeElapsed(time: Hours)

  /** The ways a badly configured scenario makes the engine fail. */
  datatype Error =
    | NoDeliveryForCargo(cargo: Cargo)
    | NoRouteForCargo(cargo: Cargo)
    | NoLegFrom(cargo: Cargo, location: Location)
    | DidNotConverge

  /** Every location, in declaration order. */
  function AllLocations(): (r: seq<Location>)
    ensures forall l: Location :: l in r
    ensures forall i, k :: 0 <= i < k < |r| ==> r[i] != r[k]
  {
    var r := [Factory, Port, WarehouseA, WarehouseB];
    EveryLocationListed(r);
    r
  }

  lemma EveryLocationListed(r: seq<Location>)
    requires r == [Factory, Port, WarehouseA, WarehouseB]
    ensures forall l: Location :: l in r
  {
    forall l: Location ensures l in r {
      match l
      case Factory => assert r[0] == l;
      case Port => assert r[1] == l;
      case WarehouseA => assert r[2] == l;
      case WarehouseB => assert r[3] == l;
    }
  }

  /** Every leg of every route lasts at least one hour. */
  ghost predicate PositiveDurations(network: Network) {
    forall r, leg :: r in network && leg in r.legs ==> leg.duration >= 1
  }

  /** Index of the first delivery of `cargo` in the plan, or `|plan|` when there is none. */
  function FirstDeliveryIndex(plan: Plan, cargo: Cargo): (i: nat)
    ensures i <= |plan|
    ensures i < |plan| ==> plan[i].cargo == cargo
    ensures forall k :: 0 <= k < i ==> plan[k].cargo != cargo
  {
    if plan == [] then 0
    else if plan[0].cargo == cargo then 0
    else 1 + FirstDeliveryIndex(plan[1..], cargo)
  }

  /** The plan's delivery for a cargo tag: the first one with that tag. */
  function DeliveryOf(plan: Plan, cargo: Cargo): (r: Option<CargoDelivery>)
    ensures r.None? <==> forall d :: d in plan ==> d.cargo != cargo
    ensures r.Some? ==> r.value in plan && r.value.cargo == cargo
    ensures forall i :: 0 <= i < |plan| && plan[i].cargo == cargo && (forall k :: 0 <= k < i ==> plan[k].cargo != cargo)
                        ==> r == Some(plan[i])
  {
    var i := FirstDeliveryIndex(plan, cargo);
    if i < |plan| then Some(plan[i]) else None
  }

  /** A route serves a destination when one of its legs ends there. */
  predicate Serves(route: Route, destination: Location) {
    exists leg :: leg in route.legs && leg.to == destination
  }

  /** Index of the first route serving `destination`, or `|network|` when there is none. */
  function FirstRouteIndex(network: Network, destination: Location): (i: nat)
    ensures i <= |network|
    ensures i < |network| ==> Serves(network[i], destination)
    ensures forall k :: 0 <= k < i ==> !Serves(network[k], destination)
  {
    if network == [] then 0
    else if Serves(network[0], destination) then 0
    else 1 + FirstRouteIndex(network[1..], destination)
  }

  /** Index of the first leg of the route leaving `location`, or `|legs|` when there is none. */
  function FirstLegIndex(legs: seq<Leg>, location: Location): (i: nat)
    ensures i <= |legs|
    ensures i < |legs| ==> legs[i].from == location
    ensures forall k :: 0 <= k < i ==> legs[k].from != location
  {
    if legs == [] then 0
    else if legs[0].from == location then 0
    else 1 + FirstLegIndex(legs[1..], location)
  }

  /** The first route that serves the cargo's planned destination. */
  function RouteForCargo(network: Network, plan: Plan, cargo: Cargo): (r: Result<Route, Error>)
    ensures r.Success? ==> r.value in network
    ensures r.Success? ==> DeliveryOf(plan, cargo).Some? && Serves(r.value, DeliveryOf(plan, cargo).value.to)
    ensures DeliveryOf(plan, cargo).None? ==> r == Failure(NoDeliveryForCargo(cargo))
    ensures DeliveryOf(plan, cargo).Some? && (forall route :: route in network ==> !Serves(route, DeliveryOf(plan, cargo).value.to))
            ==> r == Failure(NoRouteForCargo(cargo))
    ensures DeliveryOf(plan, cargo).Some? ==>
              forall i :: 0 <= i < |network| && Serves(network[i], DeliveryOf(plan, cargo).value.to)
                          && (forall k :: 0 <= k < i ==> !Serves(network[k], DeliveryOf(plan, cargo).value.to))
                          ==> r == Success(network[i])
  {
    match DeliveryOf(plan, cargo)
    case None => Failure(NoDeliveryForCargo(cargo))
    case Some(delivery) =>
      var i := FirstRouteIndex(network, delivery.to);
      if i < |network| then Success(network[i]) else Failure(NoRouteForCargo(cargo))
  }

  /** The leg a cargo standing at `location` travels next: the first leg leaving
      `location` on the route found for the cargo. */
  function NextLeg(network: Network, plan: Plan, cargo: Cargo, location: Location): (r: Result<Leg, Error>)
    ensures r.Success? ==> DeliveryOf(plan, cargo).Some?
    ensures match RouteForCargo(network, plan, cargo)
      case Failure(e) => r == Failure(e)
      case Success(route) =>
        && (r.Success? ==> r.value.from == location && r.value in route.legs)
        && ((forall leg :: leg in route.legs ==> leg.from != location) ==> r == Failure(NoLegFrom(cargo, location)))
        && (forall i :: 0 <= i < |route.legs| && route.legs[i].from == location
                        && (forall k :: 0 <= k < i ==> route.legs[k].from != location)
                        ==> r == Success(route.legs[i]))
  {
    match RouteForCargo(network, plan, cargo)
    case Failure(e) => Failure(e)
    case Success(route) =>
      var i := FirstLegIndex(route.legs, location);
      if i < |route.legs| then Success(route.legs[i]) else Failure(NoLegFrom(cargo, location))
  }
}
