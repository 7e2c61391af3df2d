/** A delivery on which the driver as written never returns. Truck "A" carries
    cargo B four hours to warehouse B and truck "B" carries cargo A two hours
    to the port, both from the factory at hour 0. At hour 4 truck "A" delivers
    the last cargo and logs `AllCargoHasBeenDelivered(4)`; in the same tick
    truck "B", later in fleet order, gets back to the empty factory and logs
    that it started waiting, so the history no longer ends with the terminal
    event, and it never will again. */
module LateDelivery {
  import opened Wrappers
  import opened Domain
  import opened Stock
  import opened Fleet
  import opened Simulation
  import opened Invariants
  import opened Delivery
  import opened Termination
  import opened Scenarios
  import opened VehicleStep

  function LateNetwork(): Network {
    [Route([Leg(Truck, Factory, WarehouseB, 4)]), Route([Leg(Truck, Factory, Port, 2)])]
  }

  function LatePlan(): Plan {
    [CargoDelivery(B, Factory, WarehouseB), CargoDelivery(A, Factory, Port)]
  }

  function LateFleet(): FleetDeclaration {
    [(TruckA, Factory), (TruckB, Factory)]
  }

  function Trucks(a: Activity, b: Activity): FleetActivity {
    [(TruckA, a), (TruckB, b)]
  }

  function Snapshot(fleet: FleetActivity, t: Hours, stocks: Facilities, history: seq<Event>): (j: Journey)
    requires Total(stocks)
    ensures Total(j.facilities)
  {
    Journey(fleet, t, LatePlan(), stocks, history, LateNetwork())
  }

  function CarryB(e: Hours): Activity { DeliveringCargo(B, Factory, WarehouseB, 4, e) }
  function CarryA(e: Hours): Activity { DeliveringCargo(A, Factory, Port, 2, e) }

  // The history, tick by tick.
  function K1(): seq<Event> {
    [CargoDeliveryStarted(B, Factory, WarehouseB, 0), VehicleDeparted(B, TruckA, Factory, WarehouseB, 0, 4),
     CargoDeliveryStarted(A, Factory, Port, 0), VehicleDeparted(A, TruckB, Factory, Port, 0, 2)]
  }
  function DeliveredA(): seq<Event> {
    [VehicleArrived(A, TruckB, Factory, Port, 2, 2), CargoWasDeliveredToDestination(A, TruckB, Factory, Port, 2)]
  }
  function DeliveredB(): seq<Event> {
    [VehicleArrived(B, TruckA, Factory, WarehouseB, 4, 4), CargoWasDeliveredToDestination(B, TruckA, Factory, WarehouseB, 4),
     AllCargoHasBeenDelivered(4)]
  }
  function K2(): seq<Event> { K1() + [TimeElapsed(1), TimeElapsed(1)] }
  function K4(): seq<Event> { K2() + DeliveredA() + [TimeElapsed(1), TimeElapsed(1)] }
  function KEnd(): seq<Event> { K4() + DeliveredB() + [VehicleStartedWaitingForCargo(TruckB, Factory)] }
  /** What the corrected driver returns: the history up to the terminal event. */
  function KDone(): seq<Event> { K4() + DeliveredB() }

  function L0(): (j: Journey) ensures Total(j.facilities) {
    Snapshot(Trucks(WaitingToStartJourney(Factory), WaitingToStartJourney(Factory)), 0, Stocks([B, A], [], [], []), [])
  }
  function L0a(): (j: Journey) ensures Total(j.facilities) {
    Snapshot(Trucks(CarryB(0), WaitingToStartJourney(Factory)), 0, Stocks([A], [], [], []), K1()[..2])
  }
  function L0b(): (j: Journey) ensures Total(j.facilities) {
    Snapshot(Trucks(CarryB(0), CarryA(0)), 0, Stocks([], [], [], []), K1())
  }
  /** Hours 1 and 2: both trucks on the road. */
  function OnTheRoad(e: Hours, t: Hours, h: seq<Event>): (j: Journey) ensures Total(j.facilities) {
    Snapshot(Trucks(CarryB(e), CarryA(e)), t, Stocks([], [], [], []), h)
  }
  function L2a(): (j: Journey) ensures Total(j.facilities) {
    Snapshot(Trucks(CarryB(2), CarryA(1)), 2, Stocks([], [], [], []), K2())
  }
  function L2b(): (j: Journey) ensures Total(j.facilities) {
    Snapshot(Trucks(CarryB(2), Returning(Port, Factory, 2, 0)), 2, Stocks([], [A], [], []), K2() + DeliveredA())
  }
  function L3(): (j: Journey) ensures Total(j.facilities) {
    Snapshot(Trucks(CarryB(2), Returning(Port, Factory, 2, 0)), 3, Stocks([], [A], [], []), K2() + DeliveredA() + [TimeElapsed(1)])
  }
  function L3a(): (j: Journey) ensures Total(j.facilities) {
    Snapshot(Trucks(CarryB(3), Returning(Port, Factory, 2, 0)), 3, Stocks([], [A], [], []), K2() + DeliveredA() + [TimeElapsed(1)])
  }
  function L3b(): (j: Journey) ensures Total(j.facilities) {
    Snapshot(Trucks(CarryB(3), Returning(Port, Factory, 2, 1)), 3, Stocks([], [A], [], []), K2() + DeliveredA() + [TimeElapsed(1)])
  }
  function L4(): (j: Journey) ensures Total(j.facilities) {
    Snapshot(Trucks(CarryB(3), Returning(Port, Factory, 2, 1)), 4, Stocks([], [A], [], []), K4())
  }
  function L4a(): (j: Journey) ensures Total(j.facilities) {
    Snapshot(Trucks(Returning(WarehouseB, Factory, 4, 0), Returning(Port, Factory, 2, 1)), 4, Stocks([], [A], [], [B]), K4() + DeliveredB())
  }
  /** Every vehicle has moved in the tick of hour 4. */
  function M4(): (j: Journey) ensures Total(j.facilities) {
    Snapshot(Trucks(Returning(WarehouseB, Factory, 4, 0), WaitingForCargo(Factory)), 4, Stocks([], [A], [], [B]), KEnd())
  }

  lemma PutSecond(a: Activity, b: Activity, b': Activity)
    ensures Put(Trucks(a, b), TruckB, b') == Trucks(a, b')
  {
    var f := Trucks(a, b);
    assert f[1..] == [(TruckB, b)];
    assert Put(f[1..], TruckB, b') == [(TruckB, b')];
  }

  lemma LateStart()
    ensures InitialJourney(LatePlan(), LateFleet(), LateNetwork()) == L0()
  {
    LateStartFleet();
    LateStartStocks();
  }

  lemma LateStartFleet()
    ensures InitialFleet(LateFleet()) == Trucks(WaitingToStartJourney(Factory), WaitingToStartJourney(Factory))
  {
    var d1 := [(TruckA, Factory)];
    var f1 := [(TruckA, WaitingToStartJourney(Factory))];
    assert LateFleet()[..1] == d1;
    assert InitialFleet(d1) == f1;
    assert InitialFleet(LateFleet()) == Put(f1, TruckB, WaitingToStartJourney(Factory));
    assert f1[1..] == [];
  }

  lemma LateStartStocks()
    ensures StockFacilities(EmptyFacilities(), LatePlan()) == Stocks([B, A], [], [], [])
  {
    var empty := EmptyFacilities();
    var p1 := [CargoDelivery(B, Factory, WarehouseB)];
    assert LatePlan()[..1] == p1 && p1[..0] == [];
    assert StockFacilities(empty, p1) == empty[Factory := [B]];
    var g := empty[Factory := [B]];
    assert StockFacilities(empty, LatePlan()) == UnloadCargo(g, Factory, A);
    assert g[Factory] + [A] == [B, A];
    assert UnloadCargo(g, Factory, A) == g[Factory := [B, A]];
    assert g[Factory := [B, A]] == empty[Factory := [B, A]];
    assert empty[Factory := [B, A]] == Stocks([B, A], [], [], []);
  }

  lemma LegsOfLatePlan()
    ensures NextLeg(LateNetwork(), LatePlan(), B, Factory) == Success(Leg(Truck, Factory, WarehouseB, 4))
    ensures NextLeg(LateNetwork(), LatePlan(), A, Factory) == Success(Leg(Truck, Factory, Port, 2))
    ensures DeliveryOf(LatePlan(), B) == Some(CargoDelivery(B, Factory, WarehouseB))
    ensures DeliveryOf(LatePlan(), A) == Some(CargoDelivery(A, Factory, Port))
  {
    LegOfB();
    LegOfA();
  }

  lemma LegOfB()
    ensures DeliveryOf(LatePlan(), B) == Some(CargoDelivery(B, Factory, WarehouseB))
    ensures NextLeg(LateNetwork(), LatePlan(), B, Factory) == Success(Leg(Truck, Factory, WarehouseB, 4))
  {
    var route := LateNetwork()[0];
    assert route.legs[0].to == WarehouseB;
    assert RouteForCargo(LateNetwork(), LatePlan(), B) == Success(route);
  }

  lemma LegOfA()
    ensures DeliveryOf(LatePlan(), A) == Some(CargoDelivery(A, Factory, Port))
    ensures NextLeg(LateNetwork(), LatePlan(), A, Factory) == Success(Leg(Truck, Factory, Port, 2))
  {
    var route := LateNetwork()[1];
    assert LatePlan()[0].cargo != A;
    assert DeliveryOf(LatePlan(), A) == Some(LatePlan()[1]);
    assert route.legs[0].to == Port;
    assert !Serves(LateNetwork()[0], Port) by {
      assert forall leg :: leg in LateNetwork()[0].legs ==> leg == Leg(Truck, Factory, WarehouseB, 4);
    }
    assert RouteForCargo(LateNetwork(), LatePlan(), A) == Success(route);
  }

  lemma Hour0TruckAEvents()
    ensures DepartureEvents(L0(), TruckA, B, Leg(Truck, Factory, WarehouseB, 4), CargoDelivery(B, Factory, WarehouseB)) == K1()[..2]
  {
    assert Lookup(L0().fleetActivity, TruckA) == Some(WaitingToStartJourney(Factory));
  }

  lemma Hour0TruckAState()
    ensures L0a() == L0().(fleetActivity := Put(L0().fleetActivity, TruckA, CarryB(0)),
                           history := L0().history + K1()[..2],
                           facilities := LoadCargo(L0().facilities, Factory, B))
  {
    assert RemoveFirst([B, A], B) == [A];
    assert LoadCargo(L0().facilities, Factory, B) == L0a().facilities;
  }

  lemma Hour0TruckA()
    ensures StepVehicle(L0(), TruckA, WaitingToStartJourney(Factory)) == Success(L0a())
  {
    LegsOfLatePlan();
    Hour0TruckAEvents();
    Hour0TruckAState();
    assert FirstStockedCargo(L0().facilities, Factory) == Some(B);
    StepDeparts(L0(), TruckA, Factory, WaitingToStartJourney(Factory), B, Leg(Truck, Factory, WarehouseB, 4),
                CargoDelivery(B, Factory, WarehouseB), K1()[..2], L0a());
  }

  lemma Hour0TruckBEvents()
    ensures DepartureEvents(L0a(), TruckB, A, Leg(Truck, Factory, Port, 2), CargoDelivery(A, Factory, Port)) == K1()[2..]
  {
    assert Lookup(L0a().fleetActivity, TruckB) == Some(WaitingToStartJourney(Factory));
  }

  lemma Hour0TruckBState()
    ensures L0b() == L0a().(fleetActivity := Put(L0a().fleetActivity, TruckB, CarryA(0)),
                            history := L0a().history + K1()[2..],
                            facilities := LoadCargo(L0a().facilities, Factory, A))
  {
    PutSecond(CarryB(0), WaitingToStartJourney(Factory), CarryA(0));
    assert LoadCargo(L0a().facilities, Factory, A) == L0b().facilities;
    assert K1() == K1()[..2] + K1()[2..];
  }

  lemma Hour0TruckB()
    ensures StepVehicle(L0a(), TruckB, WaitingToStartJourney(Factory)) == Success(L0b())
  {
    LegsOfLatePlan();
    Hour0TruckBEvents();
    Hour0TruckBState();
    assert FirstStockedCargo(L0a().facilities, Factory) == Some(A);
    StepDeparts(L0a(), TruckB, Factory, WaitingToStartJourney(Factory), A, Leg(Truck, Factory, Port, 2),
                CargoDelivery(A, Factory, Port), K1()[2..], L0b());
  }

  lemma Hour0()
    ensures Proceed(L0()) == Success(OnTheRoad(0, 1, K1() + [TimeElapsed(1)]))
  {
    Hour0TruckA();
    Hour0TruckB();
    TwoMoves(L0(), L0a(), L0b());
    TickElapses(L0(), L0b(), OnTheRoad(0, 1, K1() + [TimeElapsed(1)]));
  }

  /** Hour 1: both trucks drive on. */
  lemma Hour1Moves()
    ensures StepVehicle(OnTheRoad(0, 1, K1() + [TimeElapsed(1)]), TruckA, CarryB(0))
         == Success(Snapshot(Trucks(CarryB(1), CarryA(0)), 1, Stocks([], [], [], []), K1() + [TimeElapsed(1)]))
    ensures StepVehicle(Snapshot(Trucks(CarryB(1), CarryA(0)), 1, Stocks([], [], [], []), K1() + [TimeElapsed(1)]), TruckB, CarryA(0))
         == Success(OnTheRoad(1, 1, K1() + [TimeElapsed(1)]))
  {
    var j := OnTheRoad(0, 1, K1() + [TimeElapsed(1)]);
    var ja := Snapshot(Trucks(CarryB(1), CarryA(0)), 1, Stocks([], [], [], []), j.history);
    StepDrives(j, TruckA, CarryB(0), ja);
    PutSecond(CarryB(1), CarryA(0), CarryA(1));
    StepDrives(ja, TruckB, CarryA(0), OnTheRoad(1, 1, j.history));
  }

  lemma Hour1()
    ensures Proceed(OnTheRoad(0, 1, K1() + [TimeElapsed(1)])) == Success(OnTheRoad(1, 2, K2()))
  {
    var j := OnTheRoad(0, 1, K1() + [TimeElapsed(1)]);
    var ja := Snapshot(Trucks(CarryB(1), CarryA(0)), 1, Stocks([], [], [], []), j.history);
    var jb := OnTheRoad(1, 1, j.history);
    Hour1Moves();
    TwoMoves(j, ja, jb);
    assert K2() == j.history + [TimeElapsed(1)];
    TickElapses(j, jb, OnTheRoad(1, 2, K2()));
  }

  lemma NoneDeliveredBefore()
    ensures CountDelivered(K2()) == 0
  {
    NothingDelivered(K2());
  }

  lemma Hour2TruckBEvents()
    ensures ArrivalEvents(L2a(), TruckB, CarryA(1), CargoDelivery(A, Factory, Port)) == DeliveredA()
  {
    NoneDeliveredBefore();
  }

  lemma Hour2TruckBState()
    ensures L2b() == L2a().(fleetActivity := Put(L2a().fleetActivity, TruckB, Returning(Port, Factory, 2, 0)),
                            history := L2a().history + DeliveredA(),
                            facilities := UnloadCargo(L2a().facilities, Port, A))
  {
    PutSecond(CarryB(2), CarryA(1), Returning(Port, Factory, 2, 0));
    assert UnloadCargo(L2a().facilities, Port, A) == L2b().facilities;
  }

  lemma Hour2TruckB()
    ensures StepVehicle(L2a(), TruckB, CarryA(1)) == Success(L2b())
  {
    LegsOfLatePlan();
    Hour2TruckBEvents();
    Hour2TruckBState();
    StepArrives(L2a(), TruckB, CarryA(1), CargoDelivery(A, Factory, Port), DeliveredA(), L2b());
  }

  lemma Hour2()
    ensures Proceed(OnTheRoad(1, 2, K2())) == Success(L3())
  {
    StepDrives(OnTheRoad(1, 2, K2()), TruckA, CarryB(1), L2a());
    Hour2TruckB();
    TwoMoves(OnTheRoad(1, 2, K2()), L2a(), L2b());
    TickElapses(OnTheRoad(1, 2, K2()), L2b(), L3());
  }

  lemma Hour3Moves()
    ensures StepVehicle(L3(), TruckA, CarryB(2)) == Success(L3a())
    ensures StepVehicle(L3a(), TruckB, Returning(Port, Factory, 2, 0)) == Success(L3b())
  {
    StepDrives(L3(), TruckA, CarryB(2), L3a());
    PutSecond(CarryB(3), Returning(Port, Factory, 2, 0), Returning(Port, Factory, 2, 1));
    StepDrives(L3a(), TruckB, Returning(Port, Factory, 2, 0), L3b());
  }

  lemma Hour3()
    ensures Proceed(L3()) == Success(L4())
  {
    Hour3Moves();
    TwoMoves(L3(), L3a(), L3b());
    Hour3Ends();
    TickElapses(L3(), L3b(), L4());
  }

  lemma Hour3Ends()
    ensures L3b().history != [] && !L3b().history[|L3b().history| - 1].AllCargoHasBeenDelivered?
    ensures L4() == L3b().(elapsedTime := L3b().elapsedTime + 1, history := L3b().history + [TimeElapsed(1)])
  {
    assert K4() == L3b().history + [TimeElapsed(1)];
  }

  lemma OneDeliveredBefore()
    ensures CountDelivered(K4()) == 1
  {
    NoneDeliveredBefore();
    TalliesOfOne(DeliveredA()[0]);
    TalliesOfOne(DeliveredA()[1]);
    assert DeliveredA() == [DeliveredA()[0]] + [DeliveredA()[1]];
    HistoryAppend([DeliveredA()[0]], [DeliveredA()[1]]);
    HistoryAppend(K2(), DeliveredA());
    NothingDelivered([TimeElapsed(1), TimeElapsed(1)]);
    HistoryAppend(K2() + DeliveredA(), [TimeElapsed(1), TimeElapsed(1)]);
  }

  lemma Hour4TruckAEvents()
    ensures ArrivalEvents(L4(), TruckA, CarryB(3), CargoDelivery(B, Factory, WarehouseB)) == DeliveredB()
  {
    OneDeliveredBefore();
  }

  lemma Hour4TruckAState()
    ensures L4a() == L4().(fleetActivity := Put(L4().fleetActivity, TruckA, Returning(WarehouseB, Factory, 4, 0)),
                           history := L4().history + DeliveredB(),
                           facilities := UnloadCargo(L4().facilities, WarehouseB, B))
  {
    assert UnloadCargo(L4().facilities, WarehouseB, B) == L4a().facilities;
  }

  lemma Hour4TruckA()
    ensures StepVehicle(L4(), TruckA, CarryB(3)) == Success(L4a())
  {
    LegsOfLatePlan();
    Hour4TruckAEvents();
    Hour4TruckAState();
    StepArrives(L4(), TruckA, CarryB(3), CargoDelivery(B, Factory, WarehouseB), DeliveredB(), L4a());
  }

  lemma Hour4TruckB()
    ensures StepVehicle(L4a(), TruckB, Returning(Port, Factory, 2, 1)) == Success(M4())
  {
    var a := Returning(Port, Factory, 2, 1);
    ReturnArrival(L4a(), TruckB, a);
    PutSecond(Returning(WarehouseB, Factory, 4, 0), a, WaitingForCargo(Factory));
    assert KEnd() == L4a().history + [VehicleStartedWaitingForCargo(TruckB, Factory)];
    StepStartsWaiting(L4a(), TruckB, Factory, Returning(Port, Factory, 2, 2), M4());
  }

  /** The tick of hour 4 logs the terminal event, then one more event. */
  lemma Hour4Moves()
    ensures StepAll(L4(), L4().fleetActivity) == Success(M4())
    ensures HasDeliveredAll(M4()) && !IsCompleted(M4())
  {
    Hour4TruckA();
    Hour4TruckB();
    TwoMoves(L4(), L4a(), M4());
    var h := KEnd();
    assert h[..|K4()| + 3] == K4() + DeliveredB();
    EndsDeliveredCounted(h[..|K4()| + 3]);
    assert h == h[..|K4()| + 3] + [h[|h| - 1]];
    HistoryAppend(h[..|K4()| + 3], [h[|h| - 1]]);
  }

  /** A tick keeps a journey valid. */
  lemma ValidAfterTick(j: Journey, next: Journey)
    requires Valid(j)
    requires Proceed(j) == Success(next)
    ensures Valid(next)
  {
    ProceedPreserves(j);
  }

  /** Valid journeys, hour by hour. */
  lemma LateStartValid()
    ensures Valid(L0())
  {
    InitialJourneyValid(LatePlan(), LateFleet(), LateNetwork());
    LateStart();
  }

  lemma LateValidHour1()
    ensures Valid(OnTheRoad(0, 1, K1() + [TimeElapsed(1)]))
  {
    LateStartValid();
    Hour0();
    ValidAfterTick(L0(), OnTheRoad(0, 1, K1() + [TimeElapsed(1)]));
  }

  lemma LateValidHour2()
    ensures Valid(OnTheRoad(1, 2, K2()))
  {
    LateValidHour1();
    Hour1();
    ValidAfterTick(OnTheRoad(0, 1, K1() + [TimeElapsed(1)]), OnTheRoad(1, 2, K2()));
  }

  lemma LateValidHour3()
    ensures Valid(L3())
  {
    LateValidHour2();
    Hour2();
    ValidAfterTick(OnTheRoad(1, 2, K2()), L3());
  }

  lemma LateJourneyValid()
    ensures Valid(L4())
  {
    LateValidHour3();
    Hour3();
    ValidAfterTick(L3(), L4());
  }

  /** After hour 4: truck "A" drives home empty from warehouse B, truck "B"
      waits at the empty factory. */
  function Homeward(e: Hours, t: Hours, h: seq<Event>): (j: Journey) ensures Total(j.facilities) {
    Snapshot(Trucks(Returning(WarehouseB, Factory, 4, e), WaitingForCargo(Factory)), t, Stocks([], [A], [], [B]), h)
  }

  /** Both trucks wait at the empty factory. */
  function BothWaiting(t: Hours, h: seq<Event>): (j: Journey) ensures Total(j.facilities) {
    Snapshot(Trucks(WaitingForCargo(Factory), WaitingForCargo(Factory)), t, Stocks([], [A], [], [B]), h)
  }

  /** A history that does not end with the terminal event. */
  predicate GoesOn(h: seq<Event>) {
    h != [] && !h[|h| - 1].AllCargoHasBeenDelivered?
  }

  /** Truck "A" drives one more hour home; truck "B" keeps waiting. */
  lemma HomewardDrives(e: Hours, t: Hours, h: seq<Event>)
    requires e < 3 && GoesOn(h)
    ensures Proceed(Homeward(e, t, h)) == Success(Homeward(e + 1, t + 1, h + [TimeElapsed(1)]))
  {
    var j := Homeward(e, t, h);
    var j1 := Homeward(e + 1, t, h);
    var a := Returning(WarehouseB, Factory, 4, e);
    assert Put(j.fleetActivity, TruckA, a.ContinueRoute()) == j1.fleetActivity;
    StepDrives(j, TruckA, a, j1);
    assert StepVehicle(j1, TruckB, WaitingForCargo(Factory)) == Success(j1);
    TwoMoves(j, j1, j1);
    TickElapses(j, j1, Homeward(e + 1, t + 1, h + [TimeElapsed(1)]));
  }

  /** Truck "A" gets home to the empty factory and starts waiting too. */
  lemma HomewardArrives(t: Hours, h: seq<Event>)
    requires GoesOn(h)
    ensures Proceed(Homeward(3, t, h))
         == Success(BothWaiting(t + 1, h + [VehicleStartedWaitingForCargo(TruckA, Factory)] + [TimeElapsed(1)]))
  {
    var j := Homeward(3, t, h);
    var j1 := BothWaiting(t, h + [VehicleStartedWaitingForCargo(TruckA, Factory)]);
    var a := Returning(WarehouseB, Factory, 4, 3);
    ReturnArrival(j, TruckA, a);
    assert Put(j.fleetActivity, TruckA, WaitingForCargo(Factory)) == j1.fleetActivity;
    StepStartsWaiting(j, TruckA, Factory, Returning(WarehouseB, Factory, 4, 4), j1);
    assert StepVehicle(j1, TruckB, WaitingForCargo(Factory)) == Success(j1);
    TwoMoves(j, j1, j1);
    TickElapses(j, j1, BothWaiting(t + 1, h + [VehicleStartedWaitingForCargo(TruckA, Factory)] + [TimeElapsed(1)]));
  }

  /** With both trucks at the empty factory, nobody can move again. */
  lemma BothWaitingIdle(t: Hours, h: seq<Event>)
    requires GoesOn(h)
    ensures IdleEntries(BothWaiting(t, h), BothWaiting(t, h).fleetActivity) && !IsCompleted(BothWaiting(t, h))
  {
  }

  /** Once truck "A" is an hour from home, the driver as written goes round
      until the fuel runs out. */
  lemma HomeReached(t: Hours, h: seq<Event>, fuel: nat)
    requires GoesOn(h)
    ensures Run(Homeward(3, t, h), fuel) == Failure(DidNotConverge)
  {
    var j := Homeward(3, t, h);
    assert !IsCompleted(j);
    if fuel > 0 {
      var m: nat := fuel - 1;
      var next := BothWaiting(t + 1, h + [VehicleStartedWaitingForCargo(TruckA, Factory)] + [TimeElapsed(1)]);
      HomewardArrives(t, h);
      RunTick(j, fuel, m, next);
      BothWaitingIdle(t + 1, h + [VehicleStartedWaitingForCargo(TruckA, Factory)] + [TimeElapsed(1)]);
      IdleNeverFinishes(next, m);
    }
  }

  /** On the way home and after it, the driver as written goes round until
      the fuel runs out. */
  lemma {:induction false} HomewardNeverFinishes(e: Hours, t: Hours, h: seq<Event>, fuel: nat)
    requires e <= 3 && GoesOn(h)
    ensures Run(Homeward(e, t, h), fuel) == Failure(DidNotConverge)
    decreases 3 - e
  {
    if e == 3 {
      HomeReached(t, h, fuel);
    } else if fuel > 0 {
      var m: nat := fuel - 1;
      assert !IsCompleted(Homeward(e, t, h));
      HomewardDrives(e, t, h);
      RunTick(Homeward(e, t, h), fuel, m, Homeward(e + 1, t + 1, h + [TimeElapsed(1)]));
      HomewardNeverFinishes(e + 1, t + 1, h + [TimeElapsed(1)], m);
    }
  }

  /** A journey the driver as written goes round from until the fuel runs
      out, after one tick from a journey that has not completed, is one more. */
  lemma StuckAfter(j: Journey, next: Journey)
    requires Total(j.facilities) && !IsCompleted(j)
    requires Proceed(j) == Success(next)
    requires forall fuel: nat :: Run(next, fuel) == Failure(DidNotConverge)
    ensures forall fuel: nat :: Run(j, fuel) == Failure(DidNotConverge)
  {
    forall fuel: nat
      ensures Run(j, fuel) == Failure(DidNotConverge)
    {
      if fuel > 0 {
        assert Run(j, fuel) == Run(next, fuel - 1);
      }
    }
  }

  /** The tick of hour 4 does not end with the terminal event, so an hour passes. */
  lemma Hour4Tick()
    ensures Proceed(L4()) == Success(Homeward(0, 5, KEnd() + [TimeElapsed(1)]))
  {
    Hour4Moves();
    assert Proceed(L4()) == Success(ElapseTimeBy(M4(), 1));
    assert M4() == Homeward(0, 4, KEnd());
    HomewardElapses(KEnd());
  }

  lemma HomewardElapses(h: seq<Event>)
    ensures ElapseTimeBy(Homeward(0, 4, h), 1) == Homeward(0, 5, h + [TimeElapsed(1)])
  {
  }

  /** From hour 4 on, the driver as written goes round until the fuel runs out. */
  lemma FailsFromHour4()
    ensures forall fuel: nat :: Run(L4(), fuel) == Failure(DidNotConverge)
  {
    var h := KEnd() + [TimeElapsed(1)];
    Hour4Tick();
    forall fuel: nat
      ensures Run(Homeward(0, 5, h), fuel) == Failure(DidNotConverge)
    {
      HomewardNeverFinishes(0, 5, h, fuel);
    }
    StuckAfter(L4(), Homeward(0, 5, h));
  }

  lemma FailsFromHour3()
    ensures forall fuel: nat :: Run(L3(), fuel) == Failure(DidNotConverge)
  {
    Hour3();
    FailsFromHour4();
    StuckAfter(L3(), L4());
  }

  lemma FailsFromHour2()
    ensures forall fuel: nat :: Run(OnTheRoad(1, 2, K2()), fuel) == Failure(DidNotConverge)
  {
    Hour2();
    FailsFromHour3();
    StuckAfter(OnTheRoad(1, 2, K2()), L3());
  }

  lemma FailsFromHour1()
    ensures forall fuel: nat :: Run(OnTheRoad(0, 1, K1() + [TimeElapsed(1)]), fuel) == Failure(DidNotConverge)
  {
    Hour1();
    FailsFromHour2();
    StuckAfter(OnTheRoad(0, 1, K1() + [TimeElapsed(1)]), OnTheRoad(1, 2, K2()));
  }

  /** The driver as written never returns on this delivery: every tick
      succeeds, so it goes round until the fuel runs out, whatever the fuel. */
  lemma LateDeliveryNeverFinishes(fuel: nat)
    ensures DeliverCargo(LatePlan(), LateFleet(), LateNetwork(), fuel) == Failure(DidNotConverge)
  {
    LateStart();
    Hour0();
    FailsFromHour1();
    StuckAfter(L0(), OnTheRoad(0, 1, K1() + [TimeElapsed(1)]));
  }

  /** Why the general results can only promise "no history": a truck waiting
      at warehouse B once cargo B has been delivered there finds that cargo
      stocked, and the cargo's route has no leg leaving warehouse B. */
  lemma StationedAtDestination(h: seq<Event>)
    ensures Proceed(Snapshot([(TruckA, WaitingForCargo(WarehouseB))], 4, Stocks([], [A], [], [B]), h))
         == Failure(NoLegFrom(B, WarehouseB))
  {
    var j := Snapshot([(TruckA, WaitingForCargo(WarehouseB))], 4, Stocks([], [A], [], [B]), h);
    assert RouteForCargo(LateNetwork(), LatePlan(), B) == Success(Route([Leg(Truck, Factory, WarehouseB, 4)]));
    assert NextLeg(LateNetwork(), LatePlan(), B, WarehouseB) == Failure(NoLegFrom(B, WarehouseB));
    assert StepVehicle(j, TruckA, WaitingForCargo(WarehouseB)) == Failure(NoLegFrom(B, WarehouseB));
    assert StepAll(j, j.fleetActivity) == Failure(NoLegFrom(B, WarehouseB));
  }

  /** One tick of the corrected driver before the terminal event. */
  lemma CorrectedAfter(j: Journey, next: Journey, fuel: nat, h: seq<Event>)
    requires Total(j.facilities) && !HasDeliveredAll(j)
    requires ProceedUntilDelivered(j) == Success(next)
    requires RunUntilDelivered(next, fuel) == Success(h)
    ensures RunUntilDelivered(j, fuel + 1) == Success(h)
  {
  }

  lemma CorrectedFromHour4()
    ensures RunUntilDelivered(L4(), 1) == Success(KDone())
  {
    NoTerminalAt(4);
    CorrectedHour4Tick();
    assert RunUntilDelivered(L4a(), 0) == Success(KDone());
    CorrectedAfter(L4(), L4a(), 0, KDone());
  }

  /** In the corrected tick of hour 4 truck A logs the terminal event, and
      the tick ends there: truck B does not move. */
  lemma CorrectedHour4Tick()
    ensures HasDeliveredAll(L4a())
    ensures ProceedUntilDelivered(L4()) == Success(L4a())
  {
    assert EndsDelivered(L4a().history);
    EndsDeliveredCounted(L4a().history);
    CorrectedHour4Moves();
  }

  lemma CorrectedHour4Moves()
    requires HasDeliveredAll(L4a())
    ensures StepUntilDelivered(L4(), L4().fleetActivity) == Success(L4a())
  {
    NoTerminalAt(4);
    Hour4TruckA();
    var e := L4().fleetActivity;
    assert StepUntilDelivered(L4(), e) == StepUntilDelivered(L4a(), e[1..]);
  }

  lemma CorrectedFromHour3()
    ensures RunUntilDelivered(L3(), 2) == Success(KDone())
  {
    Hour3();
    NoTerminalAt(3);
    NoTerminalAt(4);
    TickAgrees(L3(), L4());
    CorrectedFromHour4();
    CorrectedAfter(L3(), L4(), 1, KDone());
  }

  lemma CorrectedFromHour2()
    ensures RunUntilDelivered(OnTheRoad(1, 2, K2()), 3) == Success(KDone())
  {
    Hour2();
    NoTerminalAt(2);
    NoTerminalAt(3);
    TickAgrees(OnTheRoad(1, 2, K2()), L3());
    CorrectedFromHour3();
    CorrectedAfter(OnTheRoad(1, 2, K2()), L3(), 2, KDone());
  }

  lemma CorrectedFromHour1()
    ensures RunUntilDelivered(OnTheRoad(0, 1, K1() + [TimeElapsed(1)]), 4) == Success(KDone())
  {
    Hour1();
    NoTerminalAt(1);
    NoTerminalAt(2);
    TickAgrees(OnTheRoad(0, 1, K1() + [TimeElapsed(1)]), OnTheRoad(1, 2, K2()));
    CorrectedFromHour2();
    CorrectedAfter(OnTheRoad(0, 1, K1() + [TimeElapsed(1)]), OnTheRoad(1, 2, K2()), 3, KDone());
  }

  /** The corrected driver returns on the same delivery in the tick of hour 4.
      Truck B does not move after the terminal event, which ends the history
      stamped 4. */
  lemma LateDeliveryFinishesWhenCorrected()
    ensures DeliverAllCargo(LatePlan(), LateFleet(), LateNetwork(), 5) == Success(KDone())
    ensures KDone()[|KDone()| - 1] == AllCargoHasBeenDelivered(4)
  {
    LateStart();
    Hour0();
    NoTerminalAt(1);
    TickAgrees(L0(), OnTheRoad(0, 1, K1() + [TimeElapsed(1)]));
    CorrectedFromHour1();
    CorrectedAfter(L0(), OnTheRoad(0, 1, K1() + [TimeElapsed(1)]), 4, KDone());
    KDoneEnds();
  }

  lemma KDoneEnds()
    ensures KDone()[|KDone()| - 1] == AllCargoHasBeenDelivered(4)
  {
    assert KDone()[|KDone()| - 1] == DeliveredB()[2];
  }

  /** The history at the start of each hour before 5 has no terminal event. */
  lemma NoTerminalAt(hour: nat)
    requires 1 <= hour <= 4
    ensures hour == 1 ==> CountAllDelivered(K1() + [TimeElapsed(1)]) == 0
    ensures hour == 2 ==> CountAllDelivered(K2()) == 0
    ensures hour == 3 ==> CountAllDelivered(L3().history) == 0
    ensures hour == 4 ==> CountAllDelivered(K4()) == 0
  {
    if hour == 1 {
      NoTerminalBefore(K1() + [TimeElapsed(1)]);
    } else if hour == 2 {
      NoTerminalBefore(K2());
    } else if hour == 3 {
      NoTerminalBefore(L3().history);
    } else {
      NoTerminalBefore(K4());
    }
  }

  lemma {:induction false} NoTerminalBefore(h: seq<Event>)
    requires forall e :: e in h ==> !e.AllCargoHasBeenDelivered?
    ensures CountAllDelivered(h) == 0
  {
    if h != [] {
      assert h[0] in h;
      assert forall e :: e in h[1..] ==> e in h;
      NoTerminalBefore(h[1..]);
    }
  }

  /** A tick after which the history holds no terminal event is a tick of
      both drivers. */
  lemma TickAgrees(j: Journey, next: Journey)
    requires Total(j.facilities)
    requires Proceed(j) == Success(next) && CountAllDelivered(next.history) == 0
    ensures ProceedUntilDelivered(j) == Success(next)
  {
    var moved := StepAll(j, j.fleetActivity).value;
    if HasDeliveredAll(moved) && !IsCompleted(moved) {
      HistoryAppend(moved.history, [TimeElapsed(1)]);
    }
    if IsCompleted(moved) {
      EndsDeliveredCounted(moved.history);
    }
    if !HasDeliveredAll(moved) {
      StepUntilAgrees(j, j.fleetActivity);
    }
  }
}
