/** What one vehicle's move does to the journey, case by case: waiting at an
    empty facility, meeting cargo meant for another vehicle type, departing,
    driving on, and arriving. */
module VehicleStep {
  import opened Wrappers
  import opened Domain
  import opened Stock
  import opened Fleet
  import opened Simulation

  /** Every vehicle other than `v` keeps its activity. */
  ghost predicate OthersUnchanged(f: FleetActivity, f': FleetActivity, v: Vehicle) {
    forall w :: w != v ==> Lookup(f', w) == Lookup(f, w)
  }

  lemma PutLeavesOthers(f: FleetActivity, v: Vehicle, a: Activity)
    ensures Lookup(Put(f, v, a), v) == Some(a)
    ensures OthersUnchanged(f, Put(f, v, a), v)
  {
    PutLookup(f, v, a, v);
    forall w | w != v
      ensures Lookup(Put(f, v, a), w) == Lookup(f, w)
    {
      PutLookup(f, v, a, w);
    }
  }

  /** With nothing to pick up, a vehicle already waiting changes nothing; any
      other stationary vehicle starts waiting there, with exactly one event. */
  lemma EmptyStock(j: Journey, v: Vehicle, location: Location, current: Activity)
    requires location in j.facilities && |j.facilities[location]| == 0
    ensures current.WaitingForCargo? ==> LoadOrWaitForCargo(j, v, location, current) == Success(j)
    ensures !current.WaitingForCargo? ==>
      && LoadOrWaitForCargo(j, v, location, current).Success?
      && var j' := LoadOrWaitForCargo(j, v, location, current).value;
      && j'.history == j.history + [VehicleStartedWaitingForCargo(v, location)]
      && j'.facilities == j.facilities
      && j'.elapsedTime == j.elapsedTime
      && Lookup(j'.fleetActivity, v) == Some(WaitingForCargo(location))
      && OthersUnchanged(j.fleetActivity, j'.fleetActivity, v)
  {
    PutLeavesOthers(j.fleetActivity, v, WaitingForCargo(location));
  }

  /** When the head cargo's next leg needs another vehicle type, the journey is
      returned exactly as it was: the cargo stays for another vehicle. */
  lemma WrongVehicleType(j: Journey, v: Vehicle, location: Location, current: Activity)
    requires location in j.facilities && |j.facilities[location]| > 0
    requires NextLeg(j.deliveryNetwork, j.deliveryPlan, j.facilities[location][0], location).Success?
    requires NextLeg(j.deliveryNetwork, j.deliveryPlan, j.facilities[location][0], location).value.requiredType != v.vehicleType
    ensures LoadOrWaitForCargo(j, v, location, current) == Success(j)
  {
  }

  /** A returning vehicle that arrives where the waiting cargo needs another
      vehicle type keeps its old activity, one hour short of arrival, so it
      arrives again on the next tick and emits nothing now. */
  lemma ReturningVehicleArrivesAgain(j: Journey, v: Vehicle, a: Activity)
    requires a.Returning? && a.RemainingTime() == 1
    requires Total(j.facilities) && |j.facilities[a.to]| > 0
    requires NextLeg(j.deliveryNetwork, j.deliveryPlan, j.facilities[a.to][0], a.to).Success?
    requires NextLeg(j.deliveryNetwork, j.deliveryPlan, j.facilities[a.to][0], a.to).value.requiredType != v.vehicleType
    requires Lookup(j.fleetActivity, v) == Some(a)
    ensures ContinueRoute(j, v, a) == Success(j)
    ensures Lookup(ContinueRoute(j, v, a).value.fleetActivity, v).value.RemainingTime() == 1
  {
    WrongVehicleType(j, v, a.to, a.ContinueRoute());
  }

  /** The journey after a departure, one field at a time. */
  lemma DepartedJourney(j: Journey, v: Vehicle, location: Location, current: Activity)
    requires location in j.facilities && |j.facilities[location]| > 0
    requires NextLeg(j.deliveryNetwork, j.deliveryPlan, j.facilities[location][0], location).Success?
    requires NextLeg(j.deliveryNetwork, j.deliveryPlan, j.facilities[location][0], location).value.requiredType == v.vehicleType
    ensures
      var cargo := j.facilities[location][0];
      var leg := NextLeg(j.deliveryNetwork, j.deliveryPlan, cargo, location).value;
      && leg.from == location
      && DeliveryOf(j.deliveryPlan, cargo).Some?
      && LoadOrWaitForCargo(j, v, location, current).Success?
      && var j' := LoadOrWaitForCargo(j, v, location, current).value;
      && j'.history == j.history + DepartureEvents(j, v, cargo, leg, DeliveryOf(j.deliveryPlan, cargo).value)
      && j'.facilities == LoadCargo(j.facilities, location, cargo)
      && j'.fleetActivity == Put(j.fleetActivity, v, DeliveringCargo(cargo, location, leg.to, leg.duration, 0))
  {
    assert FirstStockedCargo(j.facilities, location) == Some(j.facilities[location][0]);
  }

  /** A matching vehicle takes the head cargo and emits, in order, "stopped
      waiting" only if it was waiting, "delivery started" only if this is the
      cargo's planned origin, then "departed". */
  lemma DepartureHistory(j: Journey, v: Vehicle, location: Location, current: Activity)
    requires location in j.facilities && |j.facilities[location]| > 0
    requires NextLeg(j.deliveryNetwork, j.deliveryPlan, j.facilities[location][0], location).Success?
    requires NextLeg(j.deliveryNetwork, j.deliveryPlan, j.facilities[location][0], location).value.requiredType == v.vehicleType
    ensures
      var cargo := j.facilities[location][0];
      var leg := NextLeg(j.deliveryNetwork, j.deliveryPlan, cargo, location).value;
      && DeliveryOf(j.deliveryPlan, cargo).Some?
      && var delivery := DeliveryOf(j.deliveryPlan, cargo).value;
      && LoadOrWaitForCargo(j, v, location, current).Success?
      && LoadOrWaitForCargo(j, v, location, current).value.history == j.history
           + (if IsWaitingForCargo(Lookup(j.fleetActivity, v)) then [VehicleStoppedWaitingForCargo(v, location)] else [])
           + (if delivery.from == location then [CargoDeliveryStarted(cargo, location, delivery.to, j.elapsedTime)] else [])
           + [VehicleDeparted(cargo, v, location, leg.to, j.elapsedTime, leg.duration)]
  {
    var cargo := j.facilities[location][0];
    var leg := NextLeg(j.deliveryNetwork, j.deliveryPlan, cargo, location).value;
    DepartedJourney(j, v, location, current);
    DepartureEventsInFull(j.history, j, v, cargo, leg, DeliveryOf(j.deliveryPlan, cargo).value, location);
  }

  /** The departure events, written out after `h` for a leg that starts at
      `location`. */
  lemma DepartureEventsInFull(h: seq<Event>, j: Journey, v: Vehicle, cargo: Cargo, leg: Leg, delivery: CargoDelivery, location: Location)
    requires leg.from == location
    ensures h + DepartureEvents(j, v, cargo, leg, delivery)
         == h
            + (if IsWaitingForCargo(Lookup(j.fleetActivity, v)) then [VehicleStoppedWaitingForCargo(v, location)] else [])
            + (if delivery.from == location then [CargoDeliveryStarted(cargo, location, delivery.to, j.elapsedTime)] else [])
            + [VehicleDeparted(cargo, v, location, leg.to, j.elapsedTime, leg.duration)]
  {
    var a := if IsWaitingForCargo(Lookup(j.fleetActivity, v)) then [VehicleStoppedWaitingForCargo(v, location)] else [];
    var b := if delivery.from == location then [CargoDeliveryStarted(cargo, location, delivery.to, j.elapsedTime)] else [];
    var c := [VehicleDeparted(cargo, v, location, leg.to, j.elapsedTime, leg.duration)];
    assert DepartureEvents(j, v, cargo, leg, delivery) == a + b + c;
    assert h + (a + b + c) == h + a + b + c;
  }

  /** The departing cargo leaves the head of its queue; every other queue is
      left alone. */
  lemma DepartureLoads(j: Journey, v: Vehicle, location: Location, current: Activity)
    requires location in j.facilities && |j.facilities[location]| > 0
    requires NextLeg(j.deliveryNetwork, j.deliveryPlan, j.facilities[location][0], location).Success?
    requires NextLeg(j.deliveryNetwork, j.deliveryPlan, j.facilities[location][0], location).value.requiredType == v.vehicleType
    ensures LoadOrWaitForCargo(j, v, location, current).Success?
    ensures LoadOrWaitForCargo(j, v, location, current).value.facilities[location] == j.facilities[location][1..]
    ensures forall l :: l in j.facilities && l != location ==>
      LoadOrWaitForCargo(j, v, location, current).value.facilities[l] == j.facilities[l]
  {
    DepartedJourney(j, v, location, current);
    assert FirstStockedCargo(j.facilities, location) == Some(j.facilities[location][0]);
  }

  /** The departing vehicle carries the cargo along the leg from its start; no
      other vehicle changes. */
  lemma DepartureSetsOff(j: Journey, v: Vehicle, location: Location, current: Activity)
    requires location in j.facilities && |j.facilities[location]| > 0
    requires NextLeg(j.deliveryNetwork, j.deliveryPlan, j.facilities[location][0], location).Success?
    requires NextLeg(j.deliveryNetwork, j.deliveryPlan, j.facilities[location][0], location).value.requiredType == v.vehicleType
    ensures
      var cargo := j.facilities[location][0];
      var leg := NextLeg(j.deliveryNetwork, j.deliveryPlan, cargo, location).value;
      && LoadOrWaitForCargo(j, v, location, current).Success?
      && var j' := LoadOrWaitForCargo(j, v, location, current).value;
      && Lookup(j'.fleetActivity, v) == Some(DeliveringCargo(cargo, location, leg.to, leg.duration, 0))
      && OthersUnchanged(j.fleetActivity, j'.fleetActivity, v)
  {
    var cargo := j.facilities[location][0];
    var leg := NextLeg(j.deliveryNetwork, j.deliveryPlan, cargo, location).value;
    DepartedJourney(j, v, location, current);
    PutLeavesOthers(j.fleetActivity, v, DeliveringCargo(cargo, location, leg.to, leg.duration, 0));
  }

  /** Short of arrival, a vehicle on the road only gains an hour on its leg:
      no event, no change to any facility or other vehicle. */
  lemma StillOnTheRoad(j: Journey, v: Vehicle, a: Activity)
    requires !a.IsStationary() && a.RemainingTime() != 1
    requires Total(j.facilities)
    ensures ContinueRoute(j, v, a).Success?
    ensures var j' := ContinueRoute(j, v, a).value;
      && j'.history == j.history
      && j'.facilities == j.facilities
      && Lookup(j'.fleetActivity, v) == Some(a.(elapsedTime := a.elapsedTime + 1))
      && OthersUnchanged(j.fleetActivity, j'.fleetActivity, v)
  {
    PutLeavesOthers(j.fleetActivity, v, a.ContinueRoute());
  }

  /** A carrier at the end of its leg whose cargo is missing from the plan is a
      configuration error. */
  lemma ArrivalWithoutPlan(j: Journey, v: Vehicle, a: Activity)
    requires a.DeliveringCargo? && a.RemainingTime() == 1
    requires Total(j.facilities)
    requires DeliveryOf(j.deliveryPlan, a.cargo).None?
    ensures ContinueRoute(j, v, a) == Failure(NoDeliveryForCargo(a.cargo))
  {
    assert a.ContinueRoute().HasArrived();
  }

  /** The journey after an arrival, one field at a time. */
  lemma ArrivedJourney(j: Journey, v: Vehicle, a: Activity, delivery: CargoDelivery)
    requires a.DeliveringCargo? && a.RemainingTime() == 1
    requires Total(j.facilities)
    requires DeliveryOf(j.deliveryPlan, a.cargo) == Some(delivery)
    ensures ContinueRoute(j, v, a).Success?
    ensures ContinueRoute(j, v, a).value.history == j.history + ArrivalEvents(j, v, a, delivery)
    ensures ContinueRoute(j, v, a).value.facilities == UnloadCargo(j.facilities, a.to, a.cargo)
    ensures ContinueRoute(j, v, a).value.fleetActivity == Put(j.fleetActivity, v, Returning(a.to, a.from, a.legTime, 0))
  {
    assert a.ContinueRoute().HasArrived();
  }

  /** An arrival reports the whole leg's duration; "delivered" follows exactly
      when this is the plan's destination, and "all delivered" exactly when
      that makes the delivered count reach the plan's size. */
  lemma ArrivalHistory(j: Journey, v: Vehicle, a: Activity, delivery: CargoDelivery)
    requires a.DeliveringCargo? && a.RemainingTime() == 1
    requires Total(j.facilities)
    requires DeliveryOf(j.deliveryPlan, a.cargo) == Some(delivery)
    ensures ContinueRoute(j, v, a).Success?
    ensures ContinueRoute(j, v, a).value.history == j.history
           + [VehicleArrived(a.cargo, v, a.from, a.to, j.elapsedTime, a.legTime)]
           + (if a.to == delivery.to then
                [CargoWasDeliveredToDestination(a.cargo, v, delivery.from, delivery.to, j.elapsedTime)]
                + (if CountDelivered(j.history) + 1 == |j.deliveryPlan| then [AllCargoHasBeenDelivered(j.elapsedTime)] else [])
              else [])
  {
    ArrivedJourney(j, v, a, delivery);
    ArrivalEventsInFull(j, v, a, delivery);
  }

  /** An arriving cargo joins the tail of the queue where it arrived; every
      other queue is left alone. */
  lemma ArrivalUnloads(j: Journey, v: Vehicle, a: Activity, delivery: CargoDelivery)
    requires a.DeliveringCargo? && a.RemainingTime() == 1
    requires Total(j.facilities)
    requires DeliveryOf(j.deliveryPlan, a.cargo) == Some(delivery)
    ensures ContinueRoute(j, v, a).Success?
    ensures ContinueRoute(j, v, a).value.facilities[a.to] == j.facilities[a.to] + [a.cargo]
    ensures forall l :: l != a.to ==> ContinueRoute(j, v, a).value.facilities[l] == j.facilities[l]
  {
    ArrivedJourney(j, v, a, delivery);
  }

  /** After arriving, the vehicle heads back along the reversed leg; no other
      vehicle changes. */
  lemma ArrivalTurnsBack(j: Journey, v: Vehicle, a: Activity, delivery: CargoDelivery)
    requires a.DeliveringCargo? && a.RemainingTime() == 1
    requires Total(j.facilities)
    requires DeliveryOf(j.deliveryPlan, a.cargo) == Some(delivery)
    ensures ContinueRoute(j, v, a).Success?
    ensures Lookup(ContinueRoute(j, v, a).value.fleetActivity, v) == Some(Returning(a.to, a.from, a.legTime, 0))
    ensures OthersUnchanged(j.fleetActivity, ContinueRoute(j, v, a).value.fleetActivity, v)
  {
    ArrivedJourney(j, v, a, delivery);
    PutLeavesOthers(j.fleetActivity, v, Returning(a.to, a.from, a.legTime, 0));
  }

  /** The arrival events, written out for a carrier at the end of its leg. */
  lemma ArrivalEventsInFull(j: Journey, v: Vehicle, a: Activity, delivery: CargoDelivery)
    requires a.DeliveringCargo? && a.RemainingTime() == 1
    ensures ArrivalEvents(j, v, a, delivery)
         == [VehicleArrived(a.cargo, v, a.from, a.to, j.elapsedTime, a.legTime)]
            + (if a.to == delivery.to then
                 [CargoWasDeliveredToDestination(a.cargo, v, delivery.from, delivery.to, j.elapsedTime)]
                 + (if CountDelivered(j.history) + 1 == |j.deliveryPlan| then [AllCargoHasBeenDelivered(j.elapsedTime)] else [])
               else [])
  {
  }

  /** A returning vehicle that arrives acts in the same tick as a stationary
      vehicle at its destination that was not waiting. */
  lemma ReturnArrival(j: Journey, v: Vehicle, a: Activity)
    requires a.Returning? && a.RemainingTime() == 1
    requires Total(j.facilities)
    ensures ContinueRoute(j, v, a) == LoadOrWaitForCargo(j, v, a.to, Returning(a.from, a.to, a.legTime, a.legTime))
  {
  }
}
