/** The reference deliveries: two routes (a truck to the port then a ship to
    warehouse A; a truck straight to warehouse B), trucks "A" and "B" at the
    factory and a ship at the port. */
module Scenarios {
  import opened Wrappers
  import opened Domain
  import opened Stock
  import opened Fleet
  import opened Simulation
  import opened Invariants
  import opened Delivery

  function ReferenceNetwork(): Network {
    [Route([Leg(Truck, Factory, Port, 1), Leg(Ship, Port, WarehouseA, 4)]),
     Route([Leg(Truck, Factory, WarehouseB, 5)])]
  }

  function ReferenceFleet(): FleetDeclaration {
    [(Vehicle("A", Truck), Factory), (Vehicle("B", Truck), Factory), (Vehicle("Ship", Ship), Port)]
  }

  const TruckA := Vehicle("A", Truck)
  const TruckB := Vehicle("B", Truck)
  const TheShip := Vehicle("Ship", Ship)

  lemma EveryLocationStocked(f: Facilities)
    requires Factory in f && Port in f && WarehouseA in f && WarehouseB in f
    ensures Total(f)
  {
    forall l: Location ensures l in f {
      match l
      case Factory =>
      case Port =>
      case WarehouseA =>
      case WarehouseB =>
    }
  }

  /** Facilities holding the given queues. */
  function Stocks(atFactory: Queue, atPort: Queue, atA: Queue, atB: Queue): (r: Facilities)
    ensures Total(r)
    ensures r[Factory] == atFactory && r[Port] == atPort && r[WarehouseA] == atA && r[WarehouseB] == atB
  {
    var r := map[Factory := atFactory, Port := atPort, WarehouseA := atA, WarehouseB := atB];
    EveryLocationStocked(r);
    r
  }

  // Single vehicle moves, stated on their parts so that a concrete move is
  // checked one part at a time.

  lemma StepDeparts(j: Journey, v: Vehicle, location: Location, current: Activity,
                    cargo: Cargo, leg: Leg, delivery: CargoDelivery, evs: seq<Event>, j': Journey)
    requires location in j.facilities && FirstStockedCargo(j.facilities, location) == Some(cargo)
    requires NextLeg(j.deliveryNetwork, j.deliveryPlan, cargo, location) == Success(leg)
    requires leg.requiredType == v.vehicleType
    requires DeliveryOf(j.deliveryPlan, cargo) == Some(delivery)
    requires DepartureEvents(j, v, cargo, leg, delivery) == evs
    requires j' == j.(fleetActivity := Put(j.fleetActivity, v, DeliveringCargo(cargo, leg.from, leg.to, leg.duration, 0)),
                      history := j.history + evs,
                      facilities := LoadCargo(j.facilities, leg.from, cargo))
    ensures LoadOrWaitForCargo(j, v, location, current) == Success(j')
  {
  }

  lemma StepStartsWaiting(j: Journey, v: Vehicle, location: Location, current: Activity, j': Journey)
    requires location in j.facilities && |j.facilities[location]| == 0 && !current.WaitingForCargo?
    requires j' == j.(fleetActivity := Put(j.fleetActivity, v, WaitingForCargo(location)),
                      history := j.history + [VehicleStartedWaitingForCargo(v, location)])
    ensures LoadOrWaitForCargo(j, v, location, current) == Success(j')
  {
  }

  lemma StepArrives(j: Journey, v: Vehicle, a: Activity, delivery: CargoDelivery, evs: seq<Event>, j': Journey)
    requires Total(j.facilities) && a.DeliveringCargo? && a.RemainingTime() == 1
    requires DeliveryOf(j.deliveryPlan, a.cargo) == Some(delivery)
    requires ArrivalEvents(j, v, a, delivery) == evs
    requires j' == j.(fleetActivity := Put(j.fleetActivity, v, Returning(a.to, a.from, a.legTime, 0)),
                      history := j.history + evs,
                      facilities := UnloadCargo(j.facilities, a.to, a.cargo))
    ensures StepVehicle(j, v, a) == Success(j')
  {
  }

  lemma StepDrives(j: Journey, v: Vehicle, a: Activity, j': Journey)
    requires Total(j.facilities) && !a.IsStationary() && a.RemainingTime() != 1
    requires j' == j.(fleetActivity := Put(j.fleetActivity, v, a.ContinueRoute()))
    ensures StepVehicle(j, v, a) == Success(j')
  {
  }

  /** A fleet of two moves in order. */
  lemma TwoMoves(j: Journey, j1: Journey, j2: Journey)
    requires Total(j.facilities) && |j.fleetActivity| == 2
    requires StepVehicle(j, j.fleetActivity[0].0, j.fleetActivity[0].1) == Success(j1)
    requires StepVehicle(j1, j.fleetActivity[1].0, j.fleetActivity[1].1) == Success(j2)
    ensures StepAll(j, j.fleetActivity) == Success(j2)
  {
    var e := j.fleetActivity;
    assert StepAll(j, e) == StepAll(j1, e[1..]);
    assert StepAll(j1, e[1..]) == StepAll(j2, e[2..]);
  }

  /** A fleet of three moves in order. */
  lemma ThreeMoves(j: Journey, j1: Journey, j2: Journey, j3: Journey)
    requires Total(j.facilities) && |j.fleetActivity| == 3
    requires StepVehicle(j, j.fleetActivity[0].0, j.fleetActivity[0].1) == Success(j1)
    requires StepVehicle(j1, j.fleetActivity[1].0, j.fleetActivity[1].1) == Success(j2)
    requires StepVehicle(j2, j.fleetActivity[2].0, j.fleetActivity[2].1) == Success(j3)
    ensures StepAll(j, j.fleetActivity) == Success(j3)
  {
    var e := j.fleetActivity;
    assert StepAll(j, e) == StepAll(j1, e[1..]);
    assert StepAll(j1, e[1..]) == StepAll(j2, e[2..]);
    assert StepAll(j2, e[2..]) == StepAll(j3, e[3..]);
  }

  /** A tick whose moves do not complete the journey ends with an hour. */
  lemma TickElapses(j: Journey, moved: Journey, next: Journey)
    requires Total(j.facilities) && StepAll(j, j.fleetActivity) == Success(moved)
    requires moved.history != [] && !moved.history[|moved.history| - 1].AllCargoHasBeenDelivered?
    requires next == moved.(elapsedTime := moved.elapsedTime + 1, history := moved.history + [TimeElapsed(1)])
    ensures Proceed(j) == Success(next)
  {
    assert !IsCompleted(moved);
    assert Proceed(j) == Success(ElapseTimeBy(moved, 1));
    var e := ElapseTimeBy(moved, 1);
    assert e.history == next.history;
    assert e.history[|moved.history|..] == [TimeElapsed(1)];
    assert TimeElapsedSum([TimeElapsed(1)]) == 1;
    assert e.elapsedTime == next.elapsedTime;
    assert e == next;
  }

  /** A tick whose moves complete the journey lets no time pass. */
  lemma TickCompletes(j: Journey, moved: Journey)
    requires Total(j.facilities) && StepAll(j, j.fleetActivity) == Success(moved)
    requires moved.history != [] && moved.history[|moved.history| - 1].AllCargoHasBeenDelivered?
    ensures Proceed(j) == Success(moved)
  {
    assert IsCompleted(moved);
  }

  /** Scenario "A": one cargo A from the factory to warehouse A. */
  function PlanA(): Plan { [CargoDelivery(A, Factory, WarehouseA)] }

  function SnapshotA(fleet: FleetActivity, t: Hours, stocks: Facilities, history: seq<Event>): (j: Journey)
    requires Total(stocks)
    ensures Total(j.facilities)
  {
    Journey(fleet, t, PlanA(), stocks, history, ReferenceNetwork())
  }

  // The history of scenario "A", tick by tick.
  function H1(): seq<Event> {
    [CargoDeliveryStarted(A, Factory, WarehouseA, 0), VehicleDeparted(A, TruckA, Factory, Port, 0, 1),
     VehicleStartedWaitingForCargo(TruckB, Factory), VehicleStartedWaitingForCargo(TheShip, Port), TimeElapsed(1)]
  }
  function H2(): seq<Event> {
    H1() + [VehicleArrived(A, TruckA, Factory, Port, 1, 1), VehicleStoppedWaitingForCargo(TheShip, Port),
            VehicleDeparted(A, TheShip, Port, WarehouseA, 1, 4), TimeElapsed(1)]
  }
  function H3(): seq<Event> { H2() + [VehicleStartedWaitingForCargo(TruckA, Factory), TimeElapsed(1)] }
  function H4(): seq<Event> { H3() + [TimeElapsed(1)] }
  function H5(): seq<Event> { H4() + [TimeElapsed(1)] }
  function HistoryA(): seq<Event> {
    H5() + [VehicleArrived(A, TheShip, Port, WarehouseA, 5, 4),
            CargoWasDeliveredToDestination(A, TheShip, Factory, WarehouseA, 5),
            AllCargoHasBeenDelivered(5)]
  }

  function FleetA(a: Activity, b: Activity, ship: Activity): FleetActivity {
    [(TruckA, a), (TruckB, b), (TheShip, ship)]
  }

  function A0(): (j: Journey) ensures Total(j.facilities) {
    SnapshotA(FleetA(WaitingToStartJourney(Factory), WaitingToStartJourney(Factory), WaitingToStartJourney(Port)), 0, Stocks([A], [], [], []), [])
  }
  function A0a(): (j: Journey) ensures Total(j.facilities) {
    SnapshotA(FleetA(DeliveringCargo(A, Factory, Port, 1, 0), WaitingToStartJourney(Factory), WaitingToStartJourney(Port)), 0, Stocks([], [], [], []), H1()[..2])
  }
  function A0b(): (j: Journey) ensures Total(j.facilities) {
    SnapshotA(FleetA(DeliveringCargo(A, Factory, Port, 1, 0), WaitingForCargo(Factory), WaitingToStartJourney(Port)), 0, Stocks([], [], [], []), H1()[..3])
  }
  function A0c(): (j: Journey) ensures Total(j.facilities) {
    SnapshotA(FleetA(DeliveringCargo(A, Factory, Port, 1, 0), WaitingForCargo(Factory), WaitingForCargo(Port)), 0, Stocks([], [], [], []), H1()[..4])
  }
  function A1(): (j: Journey) ensures Total(j.facilities) {
    SnapshotA(FleetA(DeliveringCargo(A, Factory, Port, 1, 0), WaitingForCargo(Factory), WaitingForCargo(Port)), 1, Stocks([], [], [], []), H1())
  }
  function A1a(): (j: Journey) ensures Total(j.facilities) {
    SnapshotA(FleetA(Returning(Port, Factory, 1, 0), WaitingForCargo(Factory), WaitingForCargo(Port)), 1, Stocks([], [A], [], []), H2()[..6])
  }
  function A1c(): (j: Journey) ensures Total(j.facilities) {
    SnapshotA(FleetA(Returning(Port, Factory, 1, 0), WaitingForCargo(Factory), DeliveringCargo(A, Port, WarehouseA, 4, 0)), 1, Stocks([], [], [], []), H2()[..8])
  }
  function A2(): (j: Journey) ensures Total(j.facilities) {
    SnapshotA(FleetA(Returning(Port, Factory, 1, 0), WaitingForCargo(Factory), DeliveringCargo(A, Port, WarehouseA, 4, 0)), 2, Stocks([], [], [], []), H2())
  }
  function A2a(): (j: Journey) ensures Total(j.facilities) {
    SnapshotA(FleetA(WaitingForCargo(Factory), WaitingForCargo(Factory), DeliveringCargo(A, Port, WarehouseA, 4, 0)), 2, Stocks([], [], [], []), H3()[..|H2()| + 1])
  }
  /** From the third tick on only the ship moves, so the journey is this one
      with the ship `e` hours into its leg. */
  function ShipUnderWay(e: Hours, t: Hours, h: seq<Event>): (j: Journey) ensures Total(j.facilities) {
    SnapshotA(FleetA(WaitingForCargo(Factory), WaitingForCargo(Factory), DeliveringCargo(A, Port, WarehouseA, 4, e)), t, Stocks([], [], [], []), h)
  }
  function A5c(): (j: Journey) ensures Total(j.facilities) {
    SnapshotA(FleetA(WaitingForCargo(Factory), WaitingForCargo(Factory), Returning(WarehouseA, Port, 4, 0)), 5, Stocks([], [], [A], []), HistoryA())
  }

  lemma LegAFromFactory()
    ensures NextLeg(ReferenceNetwork(), PlanA(), A, Factory) == Success(Leg(Truck, Factory, Port, 1))
  {
  }

  lemma LegAFromPort()
    ensures NextLeg(ReferenceNetwork(), PlanA(), A, Port) == Success(Leg(Ship, Port, WarehouseA, 4))
  {
  }

  lemma StartA()
    ensures InitialJourney(PlanA(), ReferenceFleet(), ReferenceNetwork()) == A0()
  {
    ReferenceStartFleet();
    StartStocksA();
  }

  lemma StartStocksA()
    ensures StockFacilities(EmptyFacilities(), PlanA()) == Stocks([A], [], [], [])
  {
    var empty := EmptyFacilities();
    assert PlanA()[..0] == [];
    assert StockFacilities(empty, PlanA()) == empty[Factory := [A]];
    assert empty[Factory := [A]] == Stocks([A], [], [], []);
  }

  /** Declaring a vehicle not declared before appends it, waiting to start,
      to the fleet built so far. */
  lemma InitialFleetSnoc(decls: FleetDeclaration, v: Vehicle, l: Location, f: FleetActivity)
    requires InitialFleet(decls) == f && v !in Keys(f)
    ensures InitialFleet(decls + [(v, l)]) == f + [(v, WaitingToStartJourney(l))]
  {
    assert (decls + [(v, l)])[..|decls|] == decls;
    PutAtEnd(f, v, WaitingToStartJourney(l));
  }

  lemma ReferenceTrucks()
    ensures InitialFleet([(TruckA, Factory), (TruckB, Factory)])
         == [(TruckA, WaitingToStartJourney(Factory)), (TruckB, WaitingToStartJourney(Factory))]
  {
    var f1 := [(TruckA, WaitingToStartJourney(Factory))];
    assert [] + [(TruckA, Factory)] == [(TruckA, Factory)];
    InitialFleetSnoc([], TruckA, Factory, []);
    assert Keys(f1) == [TruckA];
    InitialFleetSnoc([(TruckA, Factory)], TruckB, Factory, f1);
    assert [(TruckA, Factory)] + [(TruckB, Factory)] == [(TruckA, Factory), (TruckB, Factory)];
    assert f1 + [(TruckB, WaitingToStartJourney(Factory))]
        == [(TruckA, WaitingToStartJourney(Factory)), (TruckB, WaitingToStartJourney(Factory))];
  }

  /** Every vehicle of the reference fleet waits to start where it was declared. */
  lemma ReferenceStartFleet()
    ensures InitialFleet(ReferenceFleet())
         == FleetA(WaitingToStartJourney(Factory), WaitingToStartJourney(Factory), WaitingToStartJourney(Port))
  {
    var d2 := [(TruckA, Factory), (TruckB, Factory)];
    var f2 := [(TruckA, WaitingToStartJourney(Factory)), (TruckB, WaitingToStartJourney(Factory))];
    ReferenceTrucks();
    assert Keys(f2) == [TruckA, TruckB];
    InitialFleetSnoc(d2, TheShip, Port, f2);
    assert ReferenceFleet() == d2 + [(TheShip, Port)];
  }

  lemma Tick0TruckA()
    ensures StepVehicle(A0(), TruckA, WaitingToStartJourney(Factory)) == Success(A0a())
  {
    var leg := Leg(Truck, Factory, Port, 1);
    var delivery := CargoDelivery(A, Factory, WarehouseA);
    LegAFromFactory();
    DeliveryOfA();
    Tick0TruckAEvents();
    Tick0TruckAState();
    StepDeparts(A0(), TruckA, Factory, WaitingToStartJourney(Factory), A, leg, delivery, H1()[..2], A0a());
  }

  lemma DeliveryOfA()
    ensures DeliveryOf(PlanA(), A) == Some(CargoDelivery(A, Factory, WarehouseA))
  {
  }

  lemma Tick0TruckAEvents()
    ensures DepartureEvents(A0(), TruckA, A, Leg(Truck, Factory, Port, 1), CargoDelivery(A, Factory, WarehouseA)) == H1()[..2]
  {
    assert Lookup(A0().fleetActivity, TruckA) == Some(WaitingToStartJourney(Factory));
  }

  lemma Tick0TruckAState()
    ensures FirstStockedCargo(A0().facilities, Factory) == Some(A)
    ensures A0a() == A0().(fleetActivity := Put(A0().fleetActivity, TruckA, DeliveringCargo(A, Factory, Port, 1, 0)),
                           history := A0().history + H1()[..2],
                           facilities := LoadCargo(A0().facilities, Factory, A))
  {
    var j := A0();
    assert Put(j.fleetActivity, TruckA, DeliveringCargo(A, Factory, Port, 1, 0)) == A0a().fleetActivity;
    assert LoadCargo(j.facilities, Factory, A) == A0a().facilities;
  }

  lemma Tick0TruckB()
    ensures StepVehicle(A0a(), TruckB, WaitingToStartJourney(Factory)) == Success(A0b())
  {
    var j := A0a();
    assert Put(j.fleetActivity, TruckB, WaitingForCargo(Factory)) == A0b().fleetActivity;
    assert H1()[..3] == H1()[..2] + [VehicleStartedWaitingForCargo(TruckB, Factory)];
    assert FirstStockedCargo(j.facilities, Factory) == None;
  }

  lemma Tick0Ship()
    ensures StepVehicle(A0b(), TheShip, WaitingToStartJourney(Port)) == Success(A0c())
  {
    var j := A0b();
    assert Put(j.fleetActivity, TheShip, WaitingForCargo(Port)) == A0c().fleetActivity;
    assert H1()[..4] == H1()[..3] + [VehicleStartedWaitingForCargo(TheShip, Port)];
    assert FirstStockedCargo(j.facilities, Port) == None;
  }

  lemma Tick0()
    ensures Proceed(A0()) == Success(A1())
  {
    Tick0TruckA();
    Tick0TruckB();
    Tick0Ship();
    ThreeMoves(A0(), A0a(), A0b(), A0c());
    assert H1() == H1()[..4] + [TimeElapsed(1)];
    TickElapses(A0(), A0c(), A1());
  }

  lemma Tick1TruckA()
    ensures StepVehicle(A1(), TruckA, DeliveringCargo(A, Factory, Port, 1, 0)) == Success(A1a())
  {
    var j := A1();
    var a := DeliveringCargo(A, Factory, Port, 1, 0);
    var delivery := CargoDelivery(A, Factory, WarehouseA);
    assert DeliveryOf(PlanA(), A) == Some(delivery);
    assert ArrivalEvents(j, TruckA, a, delivery) == [VehicleArrived(A, TruckA, Factory, Port, 1, 1)];
    assert H2()[..6] == H1() + [VehicleArrived(A, TruckA, Factory, Port, 1, 1)];
    assert Put(j.fleetActivity, TruckA, Returning(Port, Factory, 1, 0)) == A1a().fleetActivity;
    assert UnloadCargo(j.facilities, Port, A) == A1a().facilities;
  }

  lemma Tick1TruckB()
    ensures StepVehicle(A1a(), TruckB, WaitingForCargo(Factory)) == Success(A1a())
  {
    assert FirstStockedCargo(A1a().facilities, Factory) == None;
  }

  lemma Tick1Ship()
    ensures StepVehicle(A1a(), TheShip, WaitingForCargo(Port)) == Success(A1c())
  {
    var leg := Leg(Ship, Port, WarehouseA, 4);
    var delivery := CargoDelivery(A, Factory, WarehouseA);
    LegAFromPort();
    DeliveryOfA();
    Tick1ShipEvents();
    Tick1ShipState();
    StepDeparts(A1a(), TheShip, Port, WaitingForCargo(Port), A, leg, delivery, ShipBoards(), A1c());
  }

  function ShipBoards(): seq<Event> {
    [VehicleStoppedWaitingForCargo(TheShip, Port), VehicleDeparted(A, TheShip, Port, WarehouseA, 1, 4)]
  }

  lemma Tick1ShipEvents()
    ensures DepartureEvents(A1a(), TheShip, A, Leg(Ship, Port, WarehouseA, 4), CargoDelivery(A, Factory, WarehouseA)) == ShipBoards()
  {
    PutShip(Returning(Port, Factory, 1, 0), WaitingForCargo(Factory), WaitingForCargo(Port), WaitingForCargo(Port));
    PutLookup(A1a().fleetActivity, TheShip, WaitingForCargo(Port), TheShip);
    assert Lookup(A1a().fleetActivity, TheShip) == Some(WaitingForCargo(Port));
  }

  lemma Tick1ShipState()
    ensures FirstStockedCargo(A1a().facilities, Port) == Some(A)
    ensures A1c() == A1a().(fleetActivity := Put(A1a().fleetActivity, TheShip, DeliveringCargo(A, Port, WarehouseA, 4, 0)),
                            history := A1a().history + ShipBoards(),
                            facilities := LoadCargo(A1a().facilities, Port, A))
  {
    var j := A1a();
    PutShip(Returning(Port, Factory, 1, 0), WaitingForCargo(Factory), WaitingForCargo(Port), DeliveringCargo(A, Port, WarehouseA, 4, 0));
    assert H2()[..8] == H2()[..6] + ShipBoards();
    assert LoadCargo(j.facilities, Port, A) == A1c().facilities;
  }

  lemma Tick1()
    ensures Proceed(A1()) == Success(A2())
  {
    Tick1TruckA();
    Tick1TruckB();
    Tick1Ship();
    ThreeMoves(A1(), A1a(), A1a(), A1c());
    Tick1Ends();
    TickElapses(A1(), A1c(), A2());
  }

  lemma Tick1Ends()
    ensures A1c().history != [] && !A1c().history[|A1c().history| - 1].AllCargoHasBeenDelivered?
    ensures A2() == A1c().(elapsedTime := A1c().elapsedTime + 1, history := A1c().history + [TimeElapsed(1)])
  {
    assert H2() == H2()[..8] + [TimeElapsed(1)];
  }

  lemma Tick2TruckA()
    ensures StepVehicle(A2(), TruckA, Returning(Port, Factory, 1, 0)) == Success(A2a())
  {
    var j := A2();
    assert FirstStockedCargo(j.facilities, Factory) == None;
    assert H3()[..|H2()| + 1] == H2() + [VehicleStartedWaitingForCargo(TruckA, Factory)];
    assert Put(j.fleetActivity, TruckA, WaitingForCargo(Factory)) == A2a().fleetActivity;
  }

  lemma WaitingTruckB(j: Journey)
    requires Total(j.facilities) && |j.facilities[Factory]| == 0
    ensures StepVehicle(j, TruckB, WaitingForCargo(Factory)) == Success(j)
  {
  }

  lemma Tick2()
    ensures Proceed(A2()) == Success(ShipUnderWay(1, 3, H3()))
  {
    var moved := ShipUnderWay(1, 2, H3()[..|H2()| + 1]);
    Tick2TruckA();
    WaitingTruckB(A2a());
    ShipDrivesOn(A2a(), WaitingForCargo(Factory), 0, moved);
    ThreeMoves(A2(), A2a(), A2a(), moved);
    assert H3() == H3()[..|H2()| + 1] + [TimeElapsed(1)];
    TickElapses(A2(), moved, ShipUnderWay(1, 3, H3()));
  }

  /** The ship, `e` hours into its four-hour leg and short of the last hour,
      drives on. */
  lemma ShipDrivesOn(j: Journey, truck: Activity, e: Hours, j': Journey)
    requires Total(j.facilities) && 0 <= e < 3
    requires j.fleetActivity == FleetA(truck, WaitingForCargo(Factory), DeliveringCargo(A, Port, WarehouseA, 4, e))
    requires j' == j.(fleetActivity := FleetA(truck, WaitingForCargo(Factory), DeliveringCargo(A, Port, WarehouseA, 4, e + 1)))
    ensures StepVehicle(j, TheShip, DeliveringCargo(A, Port, WarehouseA, 4, e)) == Success(j')
  {
    PutShip(truck, WaitingForCargo(Factory), DeliveringCargo(A, Port, WarehouseA, 4, e), DeliveringCargo(A, Port, WarehouseA, 4, e + 1));
  }

  lemma PutShip(a: Activity, b: Activity, ship: Activity, ship': Activity)
    ensures Put(FleetA(a, b, ship), TheShip, ship') == FleetA(a, b, ship')
  {
    var f := FleetA(a, b, ship);
    assert f[1..][1..] == [(TheShip, ship)];
    assert Put(f[1..][1..], TheShip, ship') == [(TheShip, ship')];
    assert Put(f[1..], TheShip, ship') == [(TruckB, b), (TheShip, ship')];
  }

  /** While the ship is short of its last hour, a tick only moves it on and
      appends `TimeElapsed(1)`. */
  lemma QuietTick(e: Hours, t: Hours, h: seq<Event>)
    requires 1 <= e < 3
    requires h != [] && h[|h| - 1] == TimeElapsed(1)
    ensures Proceed(ShipUnderWay(e, t, h)) == Success(ShipUnderWay(e + 1, t + 1, h + [TimeElapsed(1)]))
  {
    var j := ShipUnderWay(e, t, h);
    var moved := ShipUnderWay(e + 1, t, h);
    assert StepVehicle(j, TruckA, WaitingForCargo(Factory)) == Success(j);
    WaitingTruckB(j);
    ShipDrivesOn(j, WaitingForCargo(Factory), e, moved);
    ThreeMoves(j, j, j, moved);
    TickElapses(j, moved, ShipUnderWay(e + 1, t + 1, h + [TimeElapsed(1)]));
  }

  lemma Tick5()
    ensures Proceed(ShipUnderWay(3, 5, H5())) == Success(A5c())
  {
    var j := ShipUnderWay(3, 5, H5());
    assert StepVehicle(j, TruckA, WaitingForCargo(Factory)) == Success(j);
    WaitingTruckB(j);
    ShipArrives();
    ThreeMoves(j, j, j, A5c());
    TickCompletes(j, A5c());
  }

  lemma ShipArrivalEvents()
    ensures ArrivalEvents(ShipUnderWay(3, 5, H5()), TheShip, DeliveringCargo(A, Port, WarehouseA, 4, 3), CargoDelivery(A, Factory, WarehouseA))
         == HistoryA()[|H5()|..]
  {
    NoDeliveryBefore();
  }

  lemma ShipArrives()
    ensures StepVehicle(ShipUnderWay(3, 5, H5()), TheShip, DeliveringCargo(A, Port, WarehouseA, 4, 3)) == Success(A5c())
  {
    var a := DeliveringCargo(A, Port, WarehouseA, 4, 3);
    DeliveryOfA();
    ShipArrivalEvents();
    ShipArrivalState();
    StepArrives(ShipUnderWay(3, 5, H5()), TheShip, a, CargoDelivery(A, Factory, WarehouseA), HistoryA()[|H5()|..], A5c());
  }

  lemma ShipArrivalState()
    ensures var j := ShipUnderWay(3, 5, H5());
      A5c() == j.(fleetActivity := Put(j.fleetActivity, TheShip, Returning(WarehouseA, Port, 4, 0)),
                  history := j.history + HistoryA()[|H5()|..],
                  facilities := UnloadCargo(j.facilities, WarehouseA, A))
  {
    var j := ShipUnderWay(3, 5, H5());
    assert HistoryA() == H5() + HistoryA()[|H5()|..];
    PutShip(WaitingForCargo(Factory), WaitingForCargo(Factory), DeliveringCargo(A, Port, WarehouseA, 4, 3), Returning(WarehouseA, Port, 4, 0));
    assert UnloadCargo(j.facilities, WarehouseA, A) == A5c().facilities;
  }

  lemma {:induction false} NoDeliveryBefore()
    ensures CountDelivered(H5()) == 0
  {
    assert forall e :: e in H5() ==> !e.CargoWasDeliveredToDestination?;
    NothingDelivered(H5());
  }

  lemma {:induction false} NothingDelivered(h: seq<Event>)
    requires forall e :: e in h ==> !e.CargoWasDeliveredToDestination?
    ensures CountDelivered(h) == 0
  {
    if h != [] {
      assert h[0] in h;
      assert forall e :: e in h[1..] ==> e in h;
      NothingDelivered(h[1..]);
    }
  }

  lemma RunFromTick5()
    ensures Run(ShipUnderWay(3, 5, H5()), 1) == Success(HistoryA())
  {
    Tick5();
    RunTick(ShipUnderWay(3, 5, H5()), 1, 0, A5c());
  }

  lemma RunFromTick4()
    ensures Run(ShipUnderWay(2, 4, H4()), 2) == Success(HistoryA())
  {
    QuietTick(2, 4, H4());
    RunFromTick5();
    RunTick(ShipUnderWay(2, 4, H4()), 2, 1, ShipUnderWay(3, 5, H5()));
  }

  lemma RunFromTick3()
    ensures Run(ShipUnderWay(1, 3, H3()), 3) == Success(HistoryA())
  {
    QuietTick(1, 3, H3());
    RunFromTick4();
    RunTick(ShipUnderWay(1, 3, H3()), 3, 2, ShipUnderWay(2, 4, H4()));
  }

  lemma RunFromTick2()
    ensures Run(A2(), 4) == Success(HistoryA())
  {
    Tick2();
    RunFromTick3();
    RunTick(A2(), 4, 3, ShipUnderWay(1, 3, H3()));
  }

  lemma RunFromTick1()
    ensures Run(A1(), 5) == Success(HistoryA())
  {
    Tick1();
    RunFromTick2();
    RunTick(A1(), 5, 4, A2());
  }

  /** Scenario "A": the model returns exactly this history after six ticks. */
  lemma ScenarioAHistory()
    ensures DeliverCargo(PlanA(), ReferenceFleet(), ReferenceNetwork(), 6) == Success(HistoryA())
  {
    StartA();
    Tick0();
    RunFromTick1();
    RunTick(A0(), 6, 5, A1());
  }

  /** What the reference test expects of scenario "A": with enough ticks the
      history's `AllCargoHasBeenDelivered` says 5 hours, and so do its
      `TimeElapsed` events. */
  lemma ScenarioATime(fuel: nat)
    requires fuel >= 6
    ensures DeliverCargo(PlanA(), ReferenceFleet(), ReferenceNetwork(), fuel) == Success(HistoryA())
    ensures HistoryA()[|HistoryA()| - 1] == AllCargoHasBeenDelivered(5)
    ensures TimeElapsedSum(HistoryA()) == 5
  {
    ScenarioAHistory();
    RunFuelMonotone(InitialJourney(PlanA(), ReferenceFleet(), ReferenceNetwork()), 6, fuel);
    ElapsedA();
  }

  lemma {:induction false} NoTimeElapsed(h: seq<Event>)
    requires forall e :: e in h ==> !e.TimeElapsed?
    ensures TimeElapsedSum(h) == 0
  {
    if h != [] {
      assert h[0] in h;
      assert forall e :: e in h[1..] ==> e in h;
      NoTimeElapsed(h[1..]);
    }
  }

  /** Events that are not `TimeElapsed`, then one hour. */
  lemma OneHour(h: seq<Event>)
    requires forall e :: e in h ==> !e.TimeElapsed?
    ensures TimeElapsedSum(h + [TimeElapsed(1)]) == 1
  {
    NoTimeElapsed(h);
    HistoryAppend(h, [TimeElapsed(1)]);
    TalliesOfOne(TimeElapsed(1));
  }

  /** The clock at the end of each hour of scenario "A". */
  lemma ElapsedH1()
    ensures TimeElapsedSum(H1()) == 1
  {
    assert H1() == H1()[..4] + [TimeElapsed(1)];
    OneHour(H1()[..4]);
  }

  lemma ElapsedH2()
    ensures TimeElapsedSum(H2()) == 2
  {
    var x := [VehicleArrived(A, TruckA, Factory, Port, 1, 1), VehicleStoppedWaitingForCargo(TheShip, Port),
              VehicleDeparted(A, TheShip, Port, WarehouseA, 1, 4)];
    ElapsedH1();
    OneHour(x);
    assert H2() == H1() + (x + [TimeElapsed(1)]);
    HistoryAppend(H1(), x + [TimeElapsed(1)]);
  }

  lemma ElapsedH3()
    ensures TimeElapsedSum(H3()) == 3
  {
    var x := [VehicleStartedWaitingForCargo(TruckA, Factory)];
    ElapsedH2();
    OneHour(x);
    assert H3() == H2() + (x + [TimeElapsed(1)]);
    HistoryAppend(H2(), x + [TimeElapsed(1)]);
  }

  lemma ElapsedH5()
    ensures TimeElapsedSum(H5()) == 5
  {
    ElapsedH3();
    TalliesOfOne(TimeElapsed(1));
    HistoryAppend(H3(), [TimeElapsed(1)]);
    HistoryAppend(H4(), [TimeElapsed(1)]);
  }

  lemma ElapsedA()
    ensures TimeElapsedSum(HistoryA()) == 5
  {
    var x := [VehicleArrived(A, TheShip, Port, WarehouseA, 5, 4),
              CargoWasDeliveredToDestination(A, TheShip, Factory, WarehouseA, 5),
              AllCargoHasBeenDelivered(5)];
    ElapsedH5();
    NoTimeElapsed(x);
    HistoryAppend(H5(), x);
  }
}
