# DDD Tycoon: a Dafny model of the delivery simulation

DDD Tycoon simulates a small transport company. A *delivery plan* lists the
cargo to move; each cargo goes from a location to a destination. There are
four locations: Factory, Port, WarehouseA and WarehouseB. A *delivery
network* lists routes. A route is a sequence of legs, and each leg needs a
vehicle type (Truck or Ship) and takes some hours. A *fleet* places the
named vehicles.

`deliverCargo` works as follows:
- It builds a *journey*: every vehicle waits to start, and every cargo is
  queued at its origin facility.
- It repeats the hourly tick `proceed` until the journey's history ends with
  the terminal event.
- It returns that history of domain events.

In one tick every vehicle of the fleet moves once, in fleet order:
- A stationary vehicle takes the first cargo stocked at its location. If it
  has the right type for that cargo's next leg, it departs; if the
  facility's stock is empty, it starts waiting.
- A vehicle on the road drives one more hour. When it arrives at a leg's end,
  it unloads, logs its events and turns back.

After all vehicles have moved, the tick logs `TimeElapsed(1)`, unless the
history now ends with `AllCargoHasBeenDelivered`.

The model is a set of pure functions over immutable datatypes:

| module | models |
|---|---|
| `Wrappers` | `Option` and `Result` |
| `Domain` | locations, vehicles, legs, routes, the plan and the events; the plan lookup `deliveryPlan[cargo]` and the route and leg searches |
| `Stock` | facility queues |
| `Fleet` | the insertion-ordered vehicle-to-activity map, and en-route activities |
| `Simulation` | the journey, one vehicle's move, the tick and completion |
| `VehicleStep` | case-by-case contracts of one move |
| `Invariants` | what a tick preserves |
| `Delivery` | the initial journey and the driver loop as written |
| `Termination` | the corrected driver |
| `Scenarios` | the reference network of the tests, with scenario "A" worked out |
| `LateDelivery` | the witness of the finding below |

The source handles some failures with an exception. Here they are `Failure`
values:
- A cargo missing from the plan (`first` throws).
- No route serving the destination.
- No leg leaving the current location (the `!!` of the leg search).
- A driver that runs out of fuel, in place of an endless loop.

## Model

| member | source | states |
|---|---|---|
| Domain.AllLocations | src/main/kotlin/se/haleby/tycoon/Tycoon.kt:17-19 | every location is listed, and none twice, as `Location.values()` enumerates them |
| Domain.FirstDeliveryIndex | src/main/kotlin/se/haleby/tycoon/Tycoon.kt:85 | the index found is a delivery of the cargo, and no earlier delivery is; `|plan|` when there is none |
| Domain.DeliveryOf | src/main/kotlin/se/haleby/tycoon/Tycoon.kt:85 | no result if and only if no delivery of the plan carries that cargo; otherwise the first delivery in plan order that carries it |
| Domain.FirstRouteIndex | src/main/kotlin/se/haleby/tycoon/Tycoon.kt:260 | the route found serves the destination, and no earlier route does |
| Domain.RouteForCargo | src/main/kotlin/se/haleby/tycoon/Tycoon.kt:260 | for a planned cargo, the first route of the network with a leg ending at its destination; a cargo not in the plan and a destination no route serves are the two errors |
| Domain.FirstLegIndex | src/main/kotlin/se/haleby/tycoon/Tycoon.kt:262 | the leg found leaves the given location, and no earlier leg does |
| Domain.NextLeg | src/main/kotlin/se/haleby/tycoon/Tycoon.kt:200 | the first leg of the cargo's route that leaves the current location; a failed route search passes its error on, and a route with no leg from here is the error the `!!` raises |
| Stock.RemoveFirst | src/main/kotlin/se/haleby/tycoon/Tycoon.kt:277 | removing an absent cargo changes nothing; removing a present one shortens the queue by one |
| Stock.RemoveFirstCounts | src/main/kotlin/se/haleby/tycoon/Tycoon.kt:277 | the queue after removal is, as a multiset, the old queue less one copy of the cargo |
| Stock.RemoveFirstSplits | src/main/kotlin/se/haleby/tycoon/Tycoon.kt:277 | it is the first occurrence that is removed, and the rest of the queue keeps its order |
| Stock.FirstStockedCargo | src/main/kotlin/se/haleby/tycoon/Tycoon.kt:279 | there is no first cargo if and only if the stock is empty; otherwise it is the head of the queue |
| Stock.UnloadCargo | src/main/kotlin/se/haleby/tycoon/Tycoon.kt:267-272 | the cargo joins the tail of that location's queue; every other facility is unchanged and no facility appears or disappears |
| Stock.LoadCargo | src/main/kotlin/se/haleby/tycoon/Tycoon.kt:268-272 | one copy of the cargo leaves that location's queue (exactly the head when it is the first stocked); every other facility is unchanged |
| Stock.StockOverUpdate | src/main/kotlin/se/haleby/tycoon/Tycoon.kt:270-272 | replacing one queue changes the stock over distinct locations by the change in that queue's length |
| Stock.UnloadAddsOne | src/main/kotlin/se/haleby/tycoon/Tycoon.kt:267 | unloading adds exactly one cargo to the total stock |
| Stock.LoadRemovesOne | src/main/kotlin/se/haleby/tycoon/Tycoon.kt:268 | loading a stocked cargo removes exactly one from the total stock |
| Fleet.Lookup | src/main/kotlin/se/haleby/tycoon/Tycoon.kt:205 | no activity if and only if the vehicle is not in the fleet; otherwise the recorded activity |
| Fleet.Put | src/main/kotlin/se/haleby/tycoon/Tycoon.kt:213 | a known vehicle keeps its place in the order; a new one is appended at the end |
| Fleet.PutLookup | src/main/kotlin/se/haleby/tycoon/Tycoon.kt:195 | after a put the vehicle maps to the new activity, and every other vehicle to what it had |
| Fleet.LookupAt | src/main/kotlin/se/haleby/tycoon/Tycoon.kt:171 | in a fleet without duplicate vehicles, an entry's vehicle looks up that entry's activity |
| Fleet.PutInPlace | src/main/kotlin/se/haleby/tycoon/Tycoon.kt:237 | putting a vehicle already in the fleet rewrites its own entry in place |
| Fleet.PutAtEnd | src/main/kotlin/se/haleby/tycoon/Tycoon.kt:105-107 | putting a vehicle not yet in the fleet appends its entry |
| Fleet.CountDeliveringUpdate | src/main/kotlin/se/haleby/tycoon/Tycoon.kt:242 | rewriting one entry changes the number of loaded vehicles only by that entry |
| Fleet.Activity.RemainingTime | src/main/kotlin/se/haleby/tycoon/Tycoon.kt:139 | a vehicle has no hours left exactly when its elapsed time equals the leg time; within the leg, the hours left lie between 0 and the leg time |
| Fleet.Activity.HasArrived | src/main/kotlin/se/haleby/tycoon/Tycoon.kt:140 | a vehicle has arrived exactly when it has spent the whole leg time on the road |
| Fleet.Activity.ContinueRoute | src/main/kotlin/se/haleby/tycoon/Tycoon.kt:144-148 | one more hour on the road: the same kind of activity, the same leg, the same cargo, one hour less to go |
| Fleet.Advance | src/main/kotlin/se/haleby/tycoon/Tycoon.kt:144-148 | after `n` more hours on the same leg, `n` hours fewer remain; the vehicle has arrived exactly when `n` equals the hours it had left |
| Simulation.DepartureEvents | src/main/kotlin/se/haleby/tycoon/Tycoon.kt:204-211 | one to three events, ending with the departure. The first is "stopped waiting" if and only if the vehicle was waiting. "Delivery started" is among them if and only if the leg starts at the cargo's origin. None of them is a delivery, the terminal event or a time event |
| Simulation.LoadOrWaitForCargo | src/main/kotlin/se/haleby/tycoon/Tycoon.kt:187-219 | the clock, plan, network and facility locations stay fixed and the history only grows; a changed journey has a longer history; an error needs stocked cargo |
| Simulation.ArrivalEvents | src/main/kotlin/se/haleby/tycoon/Tycoon.kt:227-233 | the arrival event comes first. A delivery event follows if and only if the leg ends at the cargo's destination. The terminal event follows that if and only if this delivery brings the count to the plan's size |
| Simulation.ContinueRoute | src/main/kotlin/se/haleby/tycoon/Tycoon.kt:221-255 | a vehicle on the road leaves the clock, plan, network and facility locations fixed and only grows the history |
| Simulation.StepVehicle | src/main/kotlin/se/haleby/tycoon/Tycoon.kt:172-175 | either kind of move keeps that same frame |
| Simulation.StepAll | src/main/kotlin/se/haleby/tycoon/Tycoon.kt:171-176 | the fold over the fleet keeps that same frame |
| Simulation.ElapseTimeBy | src/main/kotlin/se/haleby/tycoon/Tycoon.kt:257 | `TimeElapsed(time)` is appended to the history and the clock advances by that time; the fleet, the facilities, the plan and the network are unchanged |
| Simulation.Proceed | src/main/kotlin/se/haleby/tycoon/Tycoon.kt:170-182 | a tick keeps every location's facility and only extends the history |
| Simulation.IsCompleted | src/main/kotlin/se/haleby/tycoon/Tycoon.kt:184 | a journey with an empty history is not completed, since it has no last event; `Simulation.CompletedAfterAppend` states the rest |
| Simulation.CompletedAfterAppend | src/main/kotlin/se/haleby/tycoon/Tycoon.kt:184 | after events are appended, the journey is completed exactly when the last appended event is the terminal one; appending nothing leaves completion as it was |
| VehicleStep.PutLeavesOthers | src/main/kotlin/se/haleby/tycoon/Tycoon.kt:195 | a put sets the moving vehicle's activity and no other vehicle's |
| VehicleStep.EmptyStock | src/main/kotlin/se/haleby/tycoon/Tycoon.kt:188-197 | at an empty facility a waiting vehicle changes nothing. Any other vehicle starts waiting and logs exactly that event; stock, clock and the other vehicles are untouched |
| VehicleStep.WrongVehicleType | src/main/kotlin/se/haleby/tycoon/Tycoon.kt:200-203 | when the next leg of the first stocked cargo needs another vehicle type, the journey is returned unchanged |
| VehicleStep.ReturningVehicleArrivesAgain | src/main/kotlin/se/haleby/tycoon/Tycoon.kt:246-250 | a returning vehicle of the wrong type leaves the journey unchanged and stays one hour from arrival, so it arrives again next tick |
| VehicleStep.DepartedJourney | src/main/kotlin/se/haleby/tycoon/Tycoon.kt:199-216 | a departure appends the departure events, takes the cargo from the facility and records the vehicle as carrying it on the leg |
| VehicleStep.DepartureHistory | src/main/kotlin/se/haleby/tycoon/Tycoon.kt:204-214 | the departure appends, in order: "stopped waiting" (only if the vehicle was waiting), "delivery started" (only at the cargo's origin), then "departed" at the current time with the leg's duration |
| VehicleStep.DepartureLoads | src/main/kotlin/se/haleby/tycoon/Tycoon.kt:215 | the departing cargo is the head of the queue and is the one removed; other facilities keep their stock |
| VehicleStep.DepartureSetsOff | src/main/kotlin/se/haleby/tycoon/Tycoon.kt:213 | the vehicle carries the cargo from here to the leg's end, with no time elapsed; other vehicles keep their activities |
| VehicleStep.StillOnTheRoad | src/main/kotlin/se/haleby/tycoon/Tycoon.kt:241-243 | a vehicle more than one hour from arrival drives one hour further; history, stock and the other vehicles are untouched |
| VehicleStep.ArrivalWithoutPlan | src/main/kotlin/se/haleby/tycoon/Tycoon.kt:228 | an arriving cargo that the plan does not list is the `NoDeliveryForCargo` error |
| VehicleStep.ArrivedJourney | src/main/kotlin/se/haleby/tycoon/Tycoon.kt:224-240 | an arrival appends the arrival events, unloads the cargo at the leg's end and turns the vehicle back |
| VehicleStep.ArrivalHistory | src/main/kotlin/se/haleby/tycoon/Tycoon.kt:227-233 | the arrival appends "arrived" with the full leg time. If the cargo has reached its destination, "delivered" follows. "All delivered" follows that exactly when the previous delivered count plus one equals the plan's size |
| VehicleStep.ArrivalUnloads | src/main/kotlin/se/haleby/tycoon/Tycoon.kt:239 | the cargo joins the tail of the arrival facility's queue; other facilities keep their stock |
| VehicleStep.ArrivalTurnsBack | src/main/kotlin/se/haleby/tycoon/Tycoon.kt:235-237 | the vehicle returns over the same leg with no time elapsed; other vehicles keep their activities |
| VehicleStep.ReturnArrival | src/main/kotlin/se/haleby/tycoon/Tycoon.kt:246-250 | a returning vehicle that arrives acts as a stationary vehicle at its destination |
| Invariants.HistoryAppend | src/main/kotlin/se/haleby/tycoon/Tycoon.kt:231 | the delivered count, the terminal-event count and the elapsed-time total of a history are additive over concatenation |
| Invariants.EndsDeliveredCounted | src/main/kotlin/se/haleby/tycoon/Tycoon.kt:184 | a completed history holds at least one terminal event |
| Invariants.QuietAppend | src/main/kotlin/se/haleby/tycoon/Tycoon.kt:196 | appending events that are neither deliveries, terminal events nor time leaves the delivered count and the time total as they were, and keeps "one terminal event once the plan is delivered" |
| Invariants.DepartureStamped | src/main/kotlin/se/haleby/tycoon/Tycoon.kt:209-211 | departure events carry the journey's current time |
| Invariants.ArrivalStamped | src/main/kotlin/se/haleby/tycoon/Tycoon.kt:227-232 | arrival events carry the journey's current time and are never time events |
| Invariants.ArrivalTally | src/main/kotlin/se/haleby/tycoon/Tycoon.kt:229-232 | an arrival raises the delivered count by one exactly at the destination. It keeps "one terminal event once the plan is delivered". A completion it causes carries the current time |
| Invariants.LoadOrWaitPreserves | src/main/kotlin/se/haleby/tycoon/Tycoon.kt:187-219 | a stationary vehicle's move rewrites only its own entry, in place, and conserves stock plus cargo on board |
| Invariants.StartWaitingPreserves | src/main/kotlin/se/haleby/tycoon/Tycoon.kt:191-197 | starting to wait rewrites only the vehicle's own entry and keeps every invariant |
| Invariants.DeparturePreserves | src/main/kotlin/se/haleby/tycoon/Tycoon.kt:199-216 | a departure moves one cargo from stock to a vehicle, rewriting only that vehicle's entry |
| Invariants.ArrivalPreserves | src/main/kotlin/se/haleby/tycoon/Tycoon.kt:222-240 | an arrival moves one cargo from a vehicle to stock, rewriting only that vehicle's entry |
| Invariants.DrivingOnPreserves | src/main/kotlin/se/haleby/tycoon/Tycoon.kt:241-243 | driving on rewrites only the vehicle's own entry and keeps every invariant |
| Invariants.StepVehiclePreserves | src/main/kotlin/se/haleby/tycoon/Tycoon.kt:172-175 | any single move keeps every invariant and changes at most the mover's entry |
| Invariants.StepAllPreserves | src/main/kotlin/se/haleby/tycoon/Tycoon.kt:171-176 | the fold over the start-of-tick fleet entries keeps every invariant: vehicles and their order, stock plus cargo on board, clock, tallies and leg bounds |
| Invariants.ProceedPreserves | src/main/kotlin/se/haleby/tycoon/Tycoon.kt:170-182 | a tick keeps the journey valid. The vehicles, facility locations, plan and network are unchanged, and the old history is a prefix of the new one |
| Invariants.ProceedKeepsLegBounds | src/main/kotlin/se/haleby/tycoon/Tycoon.kt:139-140 | after a tick, every vehicle on the road has elapsed time at least 0 and below its leg time |
| Invariants.ProceedTime | src/main/kotlin/se/haleby/tycoon/Tycoon.kt:177-181 | a tick that does not complete adds one hour and ends with `TimeElapsed(1)`, with no other time event. A tick that completes adds no time. Every other new event carries the tick's starting time |
| Invariants.ProceedNeverCompletesLate | src/main/kotlin/se/haleby/tycoon/Tycoon.kt:177-184 | once the whole plan is delivered without the history ending in the terminal event, no later tick completes |
| Invariants.NoLateTerminal | src/main/kotlin/se/haleby/tycoon/Tycoon.kt:231-232 | with every cargo delivered, no further terminal event can be emitted |
| Delivery.DeclaredAt | src/main/kotlin/se/haleby/tycoon/Tycoon.kt:52-55 | a declared vehicle is at the location of its last declaration; an undeclared one appears in no declaration |
| Delivery.FirstDeclared | src/main/kotlin/se/haleby/tycoon/Tycoon.kt:52-55 | the position of a vehicle's first declaration, and the length of the declarations when it has none |
| Delivery.InitialFleet | src/main/kotlin/se/haleby/tycoon/Tycoon.kt:105-107 | no vehicle occurs twice, and every vehicle waits to start |
| Delivery.InitialFleetOrder | src/main/kotlin/se/haleby/tycoon/Tycoon.kt:105-107 | the starting fleet lists exactly the declared vehicles, in the order of their first declarations |
| Delivery.InitialFleetLookup | src/main/kotlin/se/haleby/tycoon/Tycoon.kt:105-107 | each declared vehicle waits to start where its last declaration put it; an undeclared one is absent |
| Delivery.EmptyFacilities | src/main/kotlin/se/haleby/tycoon/Tycoon.kt:109-111 | every location has a facility, and none has stock |
| Delivery.StockFacilities | src/main/kotlin/se/haleby/tycoon/Tycoon.kt:113-115 | stocking adds exactly one cargo per delivery of the plan |
| Delivery.StockedQueues | src/main/kotlin/se/haleby/tycoon/Tycoon.kt:113-115 | each location's queue gains the plan's cargo that starts there, in plan order |
| Delivery.InitialJourney | src/main/kotlin/se/haleby/tycoon/Tycoon.kt:117-122 | the start has time 0, an empty history, a facility at every location, and the given plan and network |
| Delivery.InitialJourneyValid | src/main/kotlin/se/haleby/tycoon/Tycoon.kt:104-122 | the starting journey is valid and within leg bounds, and each queue holds the plan's cargo from that location |
| Delivery.Run | src/main/kotlin/se/haleby/tycoon/Tycoon.kt:124-127 | a returned history ends with the terminal event and extends the starting history |
| Delivery.DeliverCargo | src/main/kotlin/se/haleby/tycoon/Tycoon.kt:104-128 | a returned history ends with the terminal event |
| Delivery.RunFuelMonotone | src/main/kotlin/se/haleby/tycoon/Tycoon.kt:124-126 | a run that returns gives the same history with any larger bound |
| Delivery.RunOutcome | src/main/kotlin/se/haleby/tycoon/Tycoon.kt:124-127 | from a valid journey, a returned history has delivered exactly the whole, non-empty plan. It holds exactly one terminal event, which is last and stamped with the sum of the time events |
| Delivery.RunNeverFinishes | src/main/kotlin/se/haleby/tycoon/Tycoon.kt:124-126 | once every cargo is delivered and the history does not end with the terminal event, the loop returns no history: it stops on a configuration error or goes round until the bound runs out |
| Delivery.RunTick | src/main/kotlin/se/haleby/tycoon/Tycoon.kt:124-125 | an incomplete journey hands the loop on to its next tick |
| Delivery.StaysLate | src/main/kotlin/se/haleby/tycoon/Tycoon.kt:177-184 | a fully delivered, incomplete journey stays valid, incomplete and fully delivered after a tick |
| Delivery.RunUnfolds | src/main/kotlin/se/haleby/tycoon/Tycoon.kt:124-126 | an incomplete journey either fails its tick or continues with the ticked journey |
| Delivery.DeliverCargoOutcome | src/main/kotlin/se/haleby/tycoon/Tycoon.kt:104-128 | a returned history delivers exactly the non-empty plan. It holds one terminal event, which is last and whose time equals the total of the time events |
| Delivery.IdleMoves | src/main/kotlin/se/haleby/tycoon/Tycoon.kt:171-190 | when every vehicle waits at a facility without stock, a tick's moves leave the journey as it was |
| Delivery.IdleNeverFinishes | src/main/kotlin/se/haleby/tycoon/Tycoon.kt:124-126 | an incomplete journey whose vehicles all wait at empty facilities goes round until the bound runs out |
| Delivery.EmptyPlanNeverFinishes | src/main/kotlin/se/haleby/tycoon/Tycoon.kt:231 | with an empty plan no history is ever returned |
| Termination.ProceedUntilDelivered | src/main/kotlin/se/haleby/tycoon/Tycoon.kt:170-182 | the corrected tick keeps every facility and only extends the history |
| Termination.StepUntilDelivered | src/main/kotlin/se/haleby/tycoon/Tycoon.kt:171-176 | the fold over the fleet that stops once the terminal event is logged keeps the clock, plan, network and facility locations, and only grows the history |
| Termination.StepUntilAgrees | src/main/kotlin/se/haleby/tycoon/Tycoon.kt:171-176 | while no terminal event is logged, the stopping fold is the fold as written |
| Termination.LoadOrWaitLogsNoTerminal | src/main/kotlin/se/haleby/tycoon/Tycoon.kt:187-219 | a stationary vehicle's move logs no terminal event |
| Termination.ArrivalLogsTerminalLast | src/main/kotlin/se/haleby/tycoon/Tycoon.kt:227-233 | an arrival that logs the terminal event logs it last |
| Termination.StepLogsTerminalLast | src/main/kotlin/se/haleby/tycoon/Tycoon.kt:172-175 | a move that logs the first terminal event leaves it last in the history |
| Termination.StepUntilEndsDelivered | src/main/kotlin/se/haleby/tycoon/Tycoon.kt:171-176 | when the stopping fold logs the terminal event, the history ends with it |
| Termination.StepUntilDeliveredPreserves | src/main/kotlin/se/haleby/tycoon/Tycoon.kt:171-176 | the stopping fold keeps every invariant the fold as written keeps |
| Termination.StepUntilReachesEnd | src/main/kotlin/se/haleby/tycoon/Tycoon.kt:171-184 | when the fold as written ends the history with its one terminal event, the stopping fold logs the same history |
| Termination.RunUntilDelivered | src/main/kotlin/se/haleby/tycoon/Tycoon.kt:124-127 | a returned history holds the terminal event and extends the start |
| Termination.DeliverAllCargo | src/main/kotlin/se/haleby/tycoon/Tycoon.kt:104-128 | the corrected driver returns only histories that hold the terminal event |
| Termination.TerminalEventAt | src/main/kotlin/se/haleby/tycoon/Tycoon.kt:184 | a history with a terminal event has one at some position |
| Termination.ProceedAgrees | src/main/kotlin/se/haleby/tycoon/Tycoon.kt:170-182 | before the terminal event, the corrected tick is the original tick |
| Termination.ProceedUntilDeliveredStamps | src/main/kotlin/se/haleby/tycoon/Tycoon.kt:177-181 | the corrected tick keeps the journey valid. The tick that logs the terminal event ends the history with it, stamped with the tick's clock, and adds no time |
| Termination.TerminalTickStamps | src/main/kotlin/se/haleby/tycoon/Tycoon.kt:231-232 | in the tick that logs the terminal event, the history ends with it, the clock is unchanged and the event carries the current time |
| Termination.TerminalEventStamped | src/main/kotlin/se/haleby/tycoon/Tycoon.kt:232 | a terminal event emitted during a tick carries that tick's time |
| Termination.RunUntilDeliveredOutcome | src/main/kotlin/se/haleby/tycoon/Tycoon.kt:124-127 | a history returned by the corrected loop has delivered exactly the whole, non-empty plan. It holds one terminal event, last and stamped with the total of the time events |
| Termination.CompletedOutcome | src/main/kotlin/se/haleby/tycoon/Tycoon.kt:184 | a valid journey whose history ends with the terminal event has delivered exactly the whole, non-empty plan, and that event carries the total of the time events |
| Termination.RunUntilDeliveredStep | src/main/kotlin/se/haleby/tycoon/Tycoon.kt:124-125 | before the terminal event, the corrected loop hands on to the next tick |
| Termination.DeliverAllCargoOutcome | src/main/kotlin/se/haleby/tycoon/Tycoon.kt:104-128 | the corrected driver's history has delivered exactly the whole, non-empty plan. It holds one terminal event, last and stamped with the total of the time events |
| Termination.LateTerminalNeverFinishes | src/main/kotlin/se/haleby/tycoon/Tycoon.kt:177-184 | after a tick whose terminal event is followed by another vehicle's event, the original loop returns no history: it stops on a configuration error or goes round until the bound runs out |
| Termination.ProceedAgreesOnSuccess | src/main/kotlin/se/haleby/tycoon/Tycoon.kt:170-182 | wherever the original loop goes on to return, the corrected tick logs the same history and completes exactly when the original does; a tick that does not complete is the same journey in both |
| Termination.RunAgrees | src/main/kotlin/se/haleby/tycoon/Tycoon.kt:124-127 | whenever the original loop returns, the corrected loop returns the same history |
| Termination.DeliverCargoAgrees | src/main/kotlin/se/haleby/tycoon/Tycoon.kt:104-128 | whenever the original driver returns, the corrected driver returns the same history |
| Scenarios.StartA | src/main/kotlin/se/haleby/tycoon/Tycoon.kt:104-122 | scenario "A" starts with cargo A at the Factory, trucks A and B at the Factory and the ship at the Port |
| Scenarios.ScenarioAHistory | src/test/kotlin/se/haleby/tycoon/TycoonTest.kt:22-44 | for the plan "A" on the reference network and fleet, the driver returns the complete event history after six ticks |
| Scenarios.ScenarioATime | src/test/kotlin/se/haleby/tycoon/TycoonTest.kt:50-58 | for the plan "A", with any bound of six ticks or more, the terminal event is stamped 5 and the time events sum to 5 |
| LateDelivery.Hour4Moves | src/main/kotlin/se/haleby/tycoon/Tycoon.kt:171-176 | in the witness's fifth tick, truck A logs the terminal event and truck B then logs "started waiting", so the history holds the terminal event without ending with it |
| LateDelivery.LateJourneyValid | src/main/kotlin/se/haleby/tycoon/Tycoon.kt:170-182 | the witness journey is valid before its fifth tick |
| LateDelivery.Hour4Tick | src/main/kotlin/se/haleby/tycoon/Tycoon.kt:177-181 | the witness's fifth tick does not stop: it appends `TimeElapsed(1)` after truck B's event, with truck A heading back to the Factory |
| LateDelivery.HomewardDrives | src/main/kotlin/se/haleby/tycoon/Tycoon.kt:246-253 | each later tick drives truck A one hour further home and logs one more hour |
| LateDelivery.HomewardArrives | src/main/kotlin/se/haleby/tycoon/Tycoon.kt:246-250 | truck A reaches the empty Factory and starts waiting there, and the hour is logged |
| LateDelivery.HomewardNeverFinishes | src/main/kotlin/se/haleby/tycoon/Tycoon.kt:124-126 | from then on every tick succeeds and the loop goes round until the bound runs out |
| LateDelivery.LateDeliveryNeverFinishes | src/main/kotlin/se/haleby/tycoon/Tycoon.kt:124-126 | for the witness every tick succeeds and the original driver ends only by running out of the bound, whatever the bound |
| LateDelivery.StationedAtDestination | src/main/kotlin/se/haleby/tycoon/Tycoon.kt:200 | a truck waiting at WarehouseB, where delivered cargo is stocked, finds no leg of that cargo's route leaving WarehouseB: the `!!` error |
| LateDelivery.LateDeliveryFinishesWhenCorrected | src/main/kotlin/se/haleby/tycoon/Tycoon.kt:124-127 | the corrected driver returns the witness's history in the tick of hour 4, ending with the terminal event stamped 4 |
| LateDelivery.CorrectedHour4Tick | src/main/kotlin/se/haleby/tycoon/Tycoon.kt:170-182 | in the corrected tick of hour 4 truck A logs the terminal event and the tick ends there: truck B does not move and no time passes |

## Left out

- The builder DSLs (`deliveryNetwork { route { leg(…) } }`, `fleet { … }`,
  `deliveryPlan { … }`) are left out. The model takes the built values: a
  sequence of routes, a sequence of (vehicle, location) declarations, and a
  sequence of deliveries.
- Persistent maps and lists are modelled as an insertion-ordered sequence of
  pairs (the fleet) and as a total map to sequences (the facilities).
- The lazy sequence of journeys becomes a tick bound (`fuel`), and running out
  of it is the `DidNotConverge` error. What the bound leaves unmodelled is
  only the non-termination itself. `Delivery.RunFuelMonotone` shows that the
  bound does not change a returned history.
- Integer overflow of Kotlin's `Int` hours is not modelled. The clock, leg
  times and `TimeElapsed` amounts are unbounded integers (Kotlin's `Int`
  without overflow). Like the source, the model allows zero and negative leg
  times; the leg-bound results assume every leg lasts at least an hour
  (`PositiveDurations`).
- Exceptions are `Failure` values of one error type, not the distinct Kotlin
  exception classes. `Domain.NextLeg` reports a missing leg as an error
  instead of a `NullPointerException`.
- The facility lookup's `!!` (Tycoon.kt:265, 271) becomes the precondition
  that the facilities cover every location. `deliverCargo` always
  establishes it, and every tick keeps it.
- `toString`, printing and the log generator of the test file are left out.
  `generateLogFromEvents` is not part of this model.
- Only scenario "A" of the parameterised test is worked
  out. The scenarios "AB", "BB", "ABB", "AABABBAB" and "ABBBABAAABBB" are not.
  The general lemmas still apply to them: one terminal event, stamped with the
  total of the time events.
- The test file builds its fleet with `add(vehicleName = …)`, while
  `Fleet` offers `vehicle(name, type, at)`. The scenario uses the vehicles
  the test means.
- With an empty plan, `deliverCargo` never returns, because the delivered
  count plus one never equals 0 (`Delivery.EmptyPlanNeverFinishes`). The
  corrected driver keeps this behaviour. What an empty plan should produce is
  not evident from the source.
- Delivery.RunNeverFinishes and Termination.LateTerminalNeverFinishes
  promise only that no history is returned, not that the loop goes round
  until the bound runs out. In general a later tick can hit the leg search's
  `!!`: a vehicle waiting at a destination where delivered cargo is stocked
  finds no leg leaving it (`LateDelivery.StationedAtDestination`). For the
  witness of the finding below, `LateDelivery.LateDeliveryNeverFinishes`
  proves that every tick succeeds and only the bound ends the run.

## Findings

| source | as written | input that shows it | evidently intended | confidence | as-written member | corrected member |
|---|---|---|---|---|---|---|
| src/main/kotlin/se/haleby/tycoon/Tycoon.kt:170-184 | `deliverCargo` stops only when the history *ends* with `AllCargoHasBeenDelivered`. A vehicle later in fleet order can still log an event in the same tick, and then `proceed` logs `TimeElapsed(1)`. Every later tick succeeds, so the loop never ends | routes `[Truck Factory→WarehouseB 4h]`, `[Truck Factory→Port 2h]`; plan `B Factory→WarehouseB`, `A Factory→Port`; trucks A and B at the Factory. At hour 4 truck A delivers B and logs the terminal event, then truck B, back at the empty Factory, logs "started waiting" | no vehicle moves after the terminal event and no time passes, so the history ends with that event and the run returns it | not executed | LateDelivery.LateDeliveryNeverFinishes | Termination.DeliverAllCargo |

In the corrected tick, `Termination.ProceedUntilDelivered`, no vehicle moves
once the terminal event has been logged, and no time passes. So the history
ends with that event, and the corrected driver `Termination.DeliverAllCargo`
returns it. This keeps what the driver's own stop test implies: a returned
history ends with the terminal event (Tycoon.kt:184), and the count check
logs that event at most once (Tycoon.kt:231):
- `LateDelivery.LateDeliveryFinishesWhenCorrected` proves that it finishes on
  the input above.
- `Termination.DeliverAllCargoOutcome` proves that whatever it returns
  has delivered exactly the whole plan, with one terminal event, last and
  stamped at the total elapsed time.
- `Termination.DeliverCargoAgrees` proves that it returns the same history as
  the original wherever the original returns.
