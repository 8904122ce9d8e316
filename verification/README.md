# Proofs about the parking system

A Dafny model of the three-node parking system (two slot sensors with bolts on RPI1, the
barrier on RPI2, the log and dashboard on RPI3) and proofs of what its parts promise.
`dafny verify dfyconfig.toml` checks everything.

## How it is organised

* `Stepper` is the 28BYJ-48 motor. The rotor's position is not a program variable: it
  follows from the coil patterns put on the pins, and a pattern the rotor cannot follow is
  counted as a slip. All position results are about this rotor.
* RPI1 driver. `SlotMachine` cuts the timer callback, both interrupt handlers and both work
  functions into the steps other contexts can see; `Driver` puts two slots, the FIFO work
  queue, its one worker, the change flag and the one reader together. A run is any list of
  actions in any order, so every interleaving is covered; an action that cannot be taken
  changes nothing. `SlotInvariants` is what each step keeps, `DriverTheorems` what follows
  for all runs; `DriverLaws` what each context achieves in them. `LockHistory` states when a slot should lock from the list of readings
  alone. `SlotDriver` has the same routines as methods of a class with the fields of
  `struct sensor_dev`; each is tied to the steps of `SlotMachine` taken one after another.
* Status path. `StatusText` (the line and the pattern that reads it), `StatusDevice`
  (`parking_read`), `Daemon` (the publishing loop), `GateDevice` (writing to
  `/dev/gate_node`) and `Pipeline`, which joins them to the driver through an MQTT topic
  that keeps order, delivers at least once and retains the last message (MQTT 3.1.1,
  sections 4.6, 4.3.2 and 3.3.1.3).
* RPI2 kernel gate. `KernelGate` says what one turn of the state machine does as a function
  of all it meets (samples, clocks, presses between any two polls of a flag);
  `GateNode.Node` is the imperative driver, proved to do exactly that. `Debounce` is the
  press filter on the wrapping tick counter. `Bridge` is the state poller of the MQTT bridge.
* RPI2 user-space gate. `UserGate` is the mutex machine with one closing thread (the main
  loop) and any number of opening threads; `UserController.Controller` has the routines as
  methods, proved equal to the machine's steps when no other thread gets in between.
* RPI3. `Dashboard` compares a page that starts from a snapshot and follows live messages
  with a page opened on the whole log.

Histories (edges, triggers, readings, presses, written states, detections, completed moves) are
recorded in the model and never read by a modelled branch.

Where the repository's notes and its code differ, the code is followed: both slot sensors
are triggered in one callback (README.md:234 says one after the other), the barrier is a
stepper (rpi2/PLAN.md:19 mentions a servo), and the delays are ten seconds
(rpi2/TEST_GUIDE.md:233 says five).

Three claims hold only under a condition, and that condition is exact:

* Debouncing on the tick counter is right exactly when the counter sees the sign of the time
  past the window as it is, whatever the two times are (`Debounce.WrappedTestAgrees`). So a
  press half the range after the end of the window is still turned away
  (`Debounce.LongSilenceTurnsAway`), and a stored time ahead of the counter, as the initial 0
  is, turns presses away exactly while it is, the window counted in, at most half the range
  ahead; further ahead it lets them through (`Debounce.TimeAhead`).
* Following a message live agrees with a fresh snapshot, whatever came before, exactly for
  well-formed messages (`Dashboard.SafeMessages`): the payload is JSON, the topic is known,
  and a slot or distance message says something about at least one slot.
* The bridge reports every opening exactly when each is caught by two successive polls: the
  earlier finds IDLE, the later the state the opening led to, and no other opening lies
  between (`Bridge.ReportsAllIffCaught`). That is so when each stay in a state is polled at
  least once (`Bridge.FineSamplingReportsAll`) and not always (`Bridge.CoarseSamplingMisses`);
  under any polling no opening is reported that did not happen (`Bridge.EventsAreReal`).

## Model

| member | source | states |
|---|---|---|
| Stepper.StepTurnsByOne | rpi1/rpi1_parking.c:172-179 | one motor step in phase turns the rotor by exactly one half-step in the asked direction, and counter and rotor stay in phase |
| Stepper.OffKeepsPhase | rpi1/rpi1_parking.c:181-186 | switching the coils off moves nothing, so the next step is again a neighbouring pattern |
| Stepper.NeighboursDifferInOneCoil | rpi1/rpi1_parking.c:159-162 | two half-step patterns differ in a single coil if and only if they are neighbours in the cycle |
| Stepper.CoilsInTurn | rpi1/rpi1_parking.c:159-162 | each coil is on in three neighbouring patterns out of eight, and the coils follow one another two patterns apart |
| Stepper.TurnedExtends | rpi2/gate_hw.c:56-63 | n steps in one direction have a closed form: final position, extreme positions visited, coils, phase |
| LockHistory.OneReading | rpi1/rpi1_parking.c:262-293 | a reading makes the slot lock if and only if it is due by the history rule; otherwise the timer keeps its meaning |
| LockHistory.FirstOfStayDecides | rpi1/rpi1_parking.c:265-278 | of all readings a stay can be counted from, the first one decides whether a reading is due |
| LockHistory.TrackMeaning | rpi1/rpi1_parking.c:261-293 | over any readings in time order LOCKING is reached if and only if some reading was occupied and an occupied one lay ten seconds back with no six empty ones in a row since; until then start and counter mean what they should |
| LockHistory.TimingMeansStay | rpi1/rpi1_parking.c:263-284 | the slot is TIMING exactly while a stay is in progress |
| SlotInvariants.LockOkStep | rpi1/rpi1_parking.c:262-387 | every step of every context keeps: exactly one hand-over is under way while the lock word is LOCKING or UNLOCKING and none otherwise, and the direction flag agrees with it when it will be read |
| SlotInvariants.SwapNeverFails | rpi1/rpi1_parking.c:262-387 | a compare-and-swap in place of each plain store would do the same |
| SlotInvariants.EchoWorkOkStep | rpi1/rpi1_parking.c:213-330 | the echo is DONE exactly while its work item is queued or about to snapshot, and never both |
| SlotInvariants.QueueNeverPending | rpi1/rpi1_parking.c:279-349 | each of the three places that call queue_work finds the item not pending, and no other step queues anything |
| SlotInvariants.BoltOkStep | rpi1/rpi1_parking.c:172-387 | every step keeps: the bolt is out by 341 half-steps per lock not undone plus the part of the move done; phase and rotor agree; coils off when no move runs |
| SlotInvariants.BoltTravel | rpi1/rpi1_parking.c:366-387 | the bolt stays within its travel, is fully out when LOCKED and fully in when FREE, TIMING or waiting to empty |
| SlotInvariants.EchoOkStep | rpi1/rpi1_parking.c:189-330 | every step keeps: start and stop are the first high sample since the trigger and the first low sample after it |
| SlotInvariants.PulseIsForward | rpi1/rpi1_parking.c:300-316 | the two ends of one pulse are in time order and not in the future |
| SlotInvariants.ValueOkStep | rpi1/rpi1_parking.c:241-251 | every step keeps distance, occupancy and lamp tied to the last accepted pulse, with the store in progress taken into account |
| SlotInvariants.ReportedValues | rpi1/rpi1_parking.c:241-251 | distance is 999 or 0 to 400; outside an update occupied means distance at most 5, equivalently a last pulse under 348 us |
| SlotInvariants.MeasuredOkStep | rpi1/rpi1_parking.c:225-247 | every step keeps: the pulse being reported and the one last reported are pulses of a trigger, of the recorded length in whole units of 1000 ns |
| SlotInvariants.ReportOkStep | rpi1/rpi1_parking.c:244-259 | every step keeps: an occupancy the reader has not picked up is announced, about to be, or still to be picked up |
| SlotInvariants.HistoryOkStep | rpi1/rpi1_parking.c:261-293 | every step keeps the timer fields equal to the history rule's timer over the readings of the present stay |
| SlotInvariants.LocksWhenDue | rpi1/rpi1_parking.c:261-284 | judging a reading leads to LOCKING if and only if the slot was FREE or TIMING and the reading is due in its epoch |
| SlotInvariants.SlotOkStep | rpi1/rpi1_parking.c:189-387 | all slot invariants together survive every step of every context |
| Driver.StepKeepsInv | rpi1/rpi1_parking.c:189-423 | every action of the whole driver keeps the invariant of both slots, the queue, the worker and the reader |
| Driver.DequeueKeeps | rpi1/rpi1_parking.c:213-216 | taking an item starts its function with the item no longer queued, and keeps the invariant |
| Driver.RunKeepsInv | rpi1/rpi1_parking.c:189-423 | every state of every run satisfies the invariant |
| DriverTheorems.NoLostUpdate | rpi1/rpi1_parking.c:262-387 | over every run plain stores and compare-and-swap stores to the lock word lead to the same state: no update is lost |
| DriverTheorems.LockWorkReadsItsOrder | rpi1/rpi1_parking.c:366-371 | whenever lock_work_func is about to read lock_pending it is true exactly for LOCKING and false exactly for UNLOCKING |
| DriverTheorems.QueueDiscipline | rpi1/rpi1_parking.c:213-387 | sensor item queued or not snapshotted iff DONE; one lock hand-over iff LOCKING or UNLOCKING; pending bits tell what is queued; no duplicates, at most four items |
| DriverTheorems.NoDroppedWork | rpi1/rpi1_parking.c:279-349 | in every run each call of queue_work really appends its item |
| DriverTheorems.BoltConservation | rpi1/rpi1_parking.c:366-387 | in every run: bolt position equals 341 times locks minus unlocks plus the partial move, the difference is 0 or 1, phase is position modulo 8, no step slipped, coils off outside moves |
| DriverTheorems.EchoPairing | rpi1/rpi1_parking.c:225-233 | what the worker is about to snapshot, and what it judges afterwards, are the first high sample after a trigger and the first low one after that, with no other trigger before the pulse was over, and start not after stop |
| DriverTheorems.ReportsInRange | rpi1/rpi1_parking.c:233-251 | in every run the reported distance is 999 before the first accepted pulse and then its length in whole centimetres of 58 us, the pulse one really seen between a trigger and the next, 1 to 23200 us long; occupied and lamp mean distance at most 5, a pulse under 348 us |
| DriverTheorems.LockDecision | rpi1/rpi1_parking.c:261-284 | in every run the worker goes on to store LOCKING if and only if the reading it judges is due among the readings since the slot last became free |
| DriverTheorems.TimingIsAStay | rpi1/rpi1_parking.c:263-284 | in every run TIMING means a stay in progress, timed from its first reading, with the counter equal to the trailing run of empty readings; FREE means none |
| DriverTheorems.RejectedEchoChangesNothing | rpi1/rpi1_parking.c:225-239 | in every run, whatever other contexts do between its two steps, a sensor item first frees the sensor and touches nothing else, and then ends without changing anything if and only if its pulse is not of 1 to 23200 us |
| DriverTheorems.NoLostChange | rpi1/rpi1_parking.c:244-259 | in every run a picked-up occupancy that is out of date is announced, about to be, or will be picked up by the read in progress |
| DriverTheorems.ButtonIsDebounced | rpi1/rpi1_parking.c:339-344 | in every run the accepted presses of a slot are the one choice that keeps accepted ones 300 ms apart and turns away only presses less than 300 ms after an accepted one |
| DriverTheorems.InternalStepsDescend | rpi1/rpi1_parking.c:213-387 | with interrupts silent every step that does anything lowers a measure, although sensor work may queue lock work and raise the flag |
| DriverTheorems.StuckIsQuiet | rpi1/rpi1_parking.c:213-423 | when no such step does anything the queue is empty, the worker rests and no notification is outstanding |
| DriverLaws.TimerArms | rpi1/rpi1_parking.c:194-205 | in every run a tick makes an idle sensor wait for its echo and marks the trigger; a busy one and everything else stay as they are |
| DriverLaws.InterruptSamples | rpi1/rpi1_parking.c:297-304 | in every run an echo interrupt takes the time and the level it finds and does nothing else until it has the lock |
| DriverLaws.EdgesAdvance | rpi1/rpi1_parking.c:304-328 | in every run a high sample starts the pulse of a waiting sensor, a low one ends it and puts the work last in the queue, any other does nothing |
| DriverLaws.PulseIsReported | rpi1/rpi1_parking.c:232-248 | under any interleaving an accepted pulse has its length in centimetres stored and the item goes on to the occupancy with its length in whole microseconds |
| DriverLaws.ChangeIsAnnounced | rpi1/rpi1_parking.c:244-259 | under any interleaving occupancy and lamp become "pulse under 348 us", and the flag is raised exactly if that is not what was reported before |
| DriverLaws.OnlyChangesRaise | rpi1/rpi1_parking.c:254-259 | nothing else raises the flag |
| DriverLaws.ReportIsJudged | rpi1/rpi1_parking.c:262-293 | under any interleaving the occupancy just reported is what goes into the lock decision, with the lock word that was read |
| DriverLaws.QueueIsFifo | rpi1/rpi1_parking.c:281-349 | in every run the worker takes from the front and any other action adds at most one item at the end |
| DriverLaws.PressIsTaken | rpi1/rpi1_parking.c:333-337 | a press is taken with its time unless the interrupt is still at work |
| DriverLaws.PressIsJudged | rpi1/rpi1_parking.c:339-344 | a press is accepted exactly if 300 ms have passed since the last accepted one, and its time is noted |
| DriverLaws.PressUnlocks | rpi1/rpi1_parking.c:346-350 | under any interleaving an accepted press on a LOCKED slot leads to UNLOCKING with the order to unlock at the end of the queue, and on any other slot to nothing |
| DriverLaws.PicksWhatIsReported | rpi1/rpi1_parking.c:410-414 | each number of a read is what that slot reports when it is picked up |
| DriverLaws.ReadsInTurn | rpi1/rpi1_parking.c:397-423 | a read begins only with a change, by clearing the flag, and returns only with all four numbers |
| SlotDriver.MeasuredIsAllSteps | rpi1/rpi1_parking.c:213-294 | the steps of the sensor work, one after another, are one measurement |
| SlotDriver.LockMovedIsAllSteps | rpi1/rpi1_parking.c:366-387 | the steps of the lock work, all 341 turns included, are one move and one change of the lock word |
| SlotDriver.SampledIsAllSteps | rpi1/rpi1_parking.c:297-330 | the two halves of the echo interrupt are one change |
| SlotDriver.PressedIsAllSteps | rpi1/rpi1_parking.c:333-353 | the steps of the button interrupt are one change: nothing within 300 ms, else noted, and on a LOCKED slot the order to unlock |
| SlotDriver.SensorDev.MeasureTick | rpi1/rpi1_parking.c:194-205 | fires exactly when the sensor was idle, and arms it |
| SlotDriver.SensorDev.EchoIsr | rpi1/rpi1_parking.c:297-330 | new echo fields from the sampled edge; work queued exactly on the falling edge it waited for |
| SlotDriver.SensorDev.BtnIsr | rpi1/rpi1_parking.c:333-353 | new lock fields from the press time; work queued exactly for an accepted press on a LOCKED slot |
| SlotDriver.SensorDev.SensorWork | rpi1/rpi1_parking.c:213-294 | a rejected echo frees the sensor only; an accepted one is stored in whole centimetres of 58 us, is occupied and lit if under 348 us, raises the flag on a change and is judged |
| SlotDriver.SensorDev.JudgeReading | rpi1/rpi1_parking.c:261-293 | the lock fields follow the decision function, and LOCKING comes with its order |
| SlotDriver.SensorDev.StepperStep | rpi1/rpi1_parking.c:172-179 | counter, pins and rotor after one step |
| SlotDriver.SensorDev.TurnAllSteps | rpi1/rpi1_parking.c:374-378 | the loop is one move of 341 steps, coils off at the end |
| SlotDriver.SensorDev.LockWork | rpi1/rpi1_parking.c:366-387 | the whole move and the state that goes with its direction |
| StatusText.RoundTrip | rpi1/rpi1_parking_mqtt.c:107-111 | for all integers the daemon's pattern reads back the four numbers the driver printed |
| StatusText.IntRoundTrip | rpi1/rpi1_parking.c:410-414 | a printed decimal followed by no digit scans back to itself, negative numbers included |
| StatusText.ReachableLineFits | rpi1/rpi1_parking.c:410-417 | the line of any reachable driver state is at most 44 bytes |
| StatusDevice.Device.Read | rpi1/rpi1_parking.c:390-423 | waits or reports nothing new without a change; else clears the flag and returns the line, or fails when the caller's buffer is too short; the daemon's 63 bytes never are |
| StatusDevice.LineReachesDaemon | rpi1/rpi1_parking_mqtt.c:103-111 | the daemon gets every reachable line whole and reads the same numbers out of it |
| Daemon.Loop | rpi1/rpi1_parking_mqtt.c:102-134 | all messages of a list of reads; for lines the driver printed, three messages each that tell exactly that status |
| Daemon.MessagesTell | rpi1/rpi1_parking_mqtt.c:114-133 | a reader of the slot message finds OCCUPIED exactly for a non-zero slot and EMPTY otherwise, a reader of the distance message both distances, and the lot message is FULL exactly if both slots are taken, each on its topic |
| Daemon.PublishesEveryStatus | rpi1/rpi1_parking_mqtt.c:102-134 | for any statuses the driver printed, exactly three messages each are published, in order, that tell it |
| Daemon.FailureStops | rpi1/rpi1_parking_mqtt.c:103-104 | a failed read ends the loop whatever would come after it |
| Daemon.BadLineSkipped | rpi1/rpi1_parking_mqtt.c:108-111 | a line that does not fit the pattern counts for nothing |
| GateDevice.CommandIs | rpi2/gate_main.c:277-298 | a write is read as a word if and only if its first 255 bytes are the word followed by blanks only or by a NUL |
| GateDevice.CopyTrimmed | rpi2/gate_main.c:277-291 | copying and trimming in place leaves the command in the buffer |
| GateDevice.ReadString | rpi2/gate_main.c:293-299 | what a C string function sees of the buffer |
| GateDevice.Device.SetCapacityFull | rpi2/gate_main.c:65-76 | flag and lamp both become the argument |
| GateDevice.Device.Write | rpi2/gate_main.c:275-302 | data that reads as FULL or AVAILABLE in its first 255 bytes sets flag and lamp, any other leaves them; the whole length is reported written |
| Pipeline.NextKeeps | rpi1/rpi1_parking_mqtt.c:102-134 | every event keeps: the newest line or message is what the reader last picked up, all messages are FULL or AVAILABLE, and the flag is what the last delivered message said |
| Pipeline.DrainedIsConverged | rpi2/gate_main.c:65-76 | in any drained state flag and lamp say whether both slots are occupied |
| Pipeline.SettlingDescends | rpi1/rpi1_parking_mqtt.c:102-134 | every step that needs no new input and does anything leaves less to do, across driver, daemon and channel |
| Pipeline.StuckIsDrained | rpi1/rpi1_parking_mqtt.c:102-134 | a system no such step can change is drained |
| Pipeline.SettlingEnds | rpi2/mqtt_bridge.c:69-89 | settling ends within the measure |
| Pipeline.Convergence | rpi2/mqtt_bridge.c:69-89 | after any run whatever, redeliveries and reconnections included, settling ends and brings flag and lamp to "both slots occupied" |
| Pipeline.CanSettle | rpi2/mqtt_bridge.c:69-89 | from every reachable state there is such a settling |
| KernelGate.MeasureCm | rpi2/gate_hw.c:233-236 | -1 for no echo or one under 58 us, else the whole centimetres of 58 us, never 0 |
| KernelGate.DetectsPulse | rpi2/gate_hw.c:233-236 | a vehicle is detected if and only if the echo lasts 58 to 637 us |
| KernelGate.VehicleLeaves | rpi2/gate_main.c:122-183 | the entry side starts its timer exactly on a sample that does not detect, the exit side exactly on an echo from beyond ten centimetres |
| KernelGate.CloseLaw | rpi2/gate_hw.c:95-142 | an undisturbed close ends in IDLE at 0, coils off; else the first check with a vehicle, a press or something owed sends the gate back to 1024 after 64 steps for each check so far, with the flags each case leaves |
| KernelGate.TurnObeys | rpi2/gate_main.c:99-203 | a turn of any gate within the invariant obeys the law of turns: from pulses in us, clocks and presses, what the state, position, timers and flags are afterwards |
| KernelGate.EveryTurnObeys | rpi2/gate_main.c:99-203 | so does the next turn after any run: an IDLE gate opens exactly for a vehicle within ten centimetres or a press, ten seconds start a close, and otherwise the gate rests |
| KernelGate.CloseCompletes | rpi2/gate_hw.c:95-142 | a close goes through if and only if no flag is pending when it starts and none of its 15 checks meets a vehicle or a press |
| KernelGate.OpenKeepsPosition | rpi2/gate_hw.c:50-66 | opening a closed gate ends at 1024 in phase without leaving the range |
| KernelGate.RollbackReturns | rpi2/gate_hw.c:119-133 | rolling back after any number of steps returns to the same place and phase, coils off |
| KernelGate.ShutReaches | rpi2/gate_hw.c:101-141 | a completed close ends at 0, in phase, coils off, no flag pending |
| KernelGate.IterateKeepsTimers | rpi2/gate_main.c:122-201 | the active timer reference never precedes the last detection |
| KernelGate.IterateKeepsWritten | rpi2/gate_main.c:99-203 | each turn extends a path of the state graph whose entry and exit parts meet only in IDLE |
| KernelGate.IterateKeeps | rpi2/gate_main.c:99-203 | one turn keeps position, timers and path together |
| KernelGate.RunKeeps | rpi2/gate_main.c:99-228 | every run keeps them |
| KernelGate.PositionOverAllRuns | rpi2/gate_main.c:99-228 | at every loop head IDLE is position 0 and everything else 1024; no motor step ever left 0 to 1024 or slipped; phase is position modulo 8; IDLE has coils off and no re-open request |
| KernelGate.QuietBeforeClosing | rpi2/gate_main.c:133-196 | a turn that starts closing finds every earlier detection at least ten whole seconds old |
| KernelGate.TenSecondsOfQuiet | rpi2/gate_main.c:133-196 | the same after any run, and in EXIT_REQUESTED the turn's own sample does not detect either |
| KernelGate.OpensWhenPressed | rpi2/gate_main.c:78-103 | the gate opens for a press exactly when one is pending at the poll of an IDLE turn, and then it is at 1024 |
| KernelGate.NoPressLost | rpi2/gate_hw.c:109-135 | wherever a turn ends, a press or request that was owed or is accepted during it (at the poll, at a check reached, or late) is still owed, or the turn opened the gate or stopped closing for it; a stop by a vehicle answers nothing; a turn that ends in IDLE leaves no request behind |
| KernelGate.OwedUntilAnswered | rpi2/gate_main.c:99-203 | over any run, what is owed stays owed until a turn opens the gate or stops closing for it |
| KernelGate.NoPressLostInRuns | rpi2/gate_main.c:99-228 | a press accepted in any turn of any run is, at any later loop head, still owed or answered by that turn or one since, and by one since if it came after the last poll of its turn |
| KernelGate.PendingPressOpens | rpi2/gate_main.c:78-103 | a press after the last poll stays pending, and a press pending in IDLE opens the gate in the next turn |
| KernelGate.PressStopsNextClose | rpi2/gate_main.c:86-88 | a press or request owed on an open gate stays owed through any run of turns that do not close, and stops the next closing move whatever its checks see, leaving the gate at 1024 |
| GateNode.Node.SwitchIrq | rpi2/gate_hw.c:249-253 | an accepted press sets the flag |
| GateNode.Node.SwitchWasPressed | rpi2/gate_hw.c:257-259 | returns the flag and clears it |
| GateNode.Node.ReopenWasRequested | rpi2/gate_hw.c:265-267 | returns the request and clears it |
| GateNode.Node.StepMotor | rpi2/gate_hw.c:58-59 | one more step of a move in closed form |
| GateNode.Node.TurnMotor | rpi2/gate_hw.c:56-63 | n steps in closed form |
| GateNode.Node.GateOpen | rpi2/gate_hw.c:50-66 | 1024 steps forward, coils left on |
| GateNode.Node.Interrupted | rpi2/gate_hw.c:118-120 | vehicle, press, request, looked at in this order and each flag cleared only when reached |
| GateNode.Node.CheckBatch | rpi2/gate_hw.c:109-135 | the move goes on with flags clear, or is rolled back to where it began |
| GateNode.Node.CloseInterruptible | rpi2/gate_hw.c:95-142 | succeeds exactly when no check stops it, and then the gate is shut; else it is where it was, coils off |
| GateNode.Node.OnSwitchPress | rpi2/gate_main.c:78-89 | opens from IDLE, otherwise leaves a re-open request |
| GateNode.Node.CloseFrom | rpi2/gate_main.c:137-144 | the outcome of a close and the state each starting state returns to |
| GateNode.Node.ActOn | rpi2/gate_main.c:110-203 | the in-place switch over the states equals KernelGate's function of state, sample and clocks, all three closing cases and their fallbacks included |
| GateNode.Node.Iteration | rpi2/gate_main.c:99-203 | one turn equals the turn of KernelGate and, within the invariant, obeys the law of turns |
| GateNode.Node.StateMachineThread | rpi2/gate_main.c:91-235 | the loop is the run of KernelGate and keeps its invariant |
| UserGate.StepKeeps | rpi2/gate_controller.c:140-199 | every step of every thread keeps who owns the mutex, who may move the motor and where the gate is |
| UserGate.RunKeeps | rpi2/main.c:59-265 | with the main loop as the one closer and any number of switch threads, every state of every interleaving satisfies that invariant |
| UserGate.MotorExclusion | rpi2/gate_controller.c:140-199 | in every interleaving no two threads drive the motor, the gate stays in 0 to 1024 without slips, and outside motion regions OPEN is exactly 1024 and CLOSED exactly 0 |
| UserGate.StateStaysDuringMoves | rpi2/gate_controller.c:170-199 | the state stays OPEN during the unlocked close and CLOSED during every opening move |
| UserController.LockedAlone | rpi2/gate_controller.c:140-168 | the steps of gate_open and gate_close with no other thread in between are one change |
| UserController.CloseAlone | rpi2/gate_controller.c:170-199 | the same for the interruptible close, whichever check stops it |
| UserController.CloseLeaves | rpi2/gate_controller.c:181-199 | the gate ends where it was with coils off if some check says yes, having gone back 64 steps for each check up to the first yes, else a full move back and CLOSED |
| UserController.OpenLeaves | rpi2/gate_controller.c:140-153 | an open gate is left as it is; a closed one ends OPEN, 1024 steps further, in phase, coils off |
| UserController.ShutLeaves | rpi2/gate_controller.c:155-168 | a closed gate is left as it is; an open one ends CLOSED, 1024 steps back, in phase, coils off |
| UserController.Controller.StepperMove | rpi2/gate_controller.c:90-103 | a signed number of steps in closed form |
| UserController.Controller.GateOpen | rpi2/gate_controller.c:140-153 | returns with the gate OPEN, from CLOSED 1024 steps further and coils off |
| UserController.Controller.GateClose | rpi2/gate_controller.c:155-168 | returns with the gate CLOSED, from OPEN 1024 steps back and coils off |
| UserController.Controller.GateCloseInterruptible | rpi2/gate_controller.c:170-199 | the batch loop stops at the first yes and turns back all steps done; -1 exactly then |
| Bridge.StateToGate | rpi2/mqtt_bridge.c:53-55 | CLOSED if and only if the text is IDLE, else OPEN |
| Bridge.TransitionToEvent | rpi2/mqtt_bridge.c:57-67 | both out-buffers for the two openings, empty otherwise |
| Bridge.PollGateState | rpi2/mqtt_bridge.c:91-146 | over any polls, failed ones included, publishes what the states found call for: a gate value for the first and for each change, followed by the event of a change out of IDLE, and nothing for a state that stays |
| Bridge.PublishedEvents | rpi2/mqtt_bridge.c:101-142 | the events published are those of neighbouring found states |
| Bridge.PublishedIsAnnounced | rpi2/mqtt_bridge.c:121-142 | the published messages are exactly the announcements of the states found |
| Bridge.OneValuePerChange | rpi2/mqtt_bridge.c:121-128 | the gate values are one for the first state found and one for each change, in order, CLOSED exactly for IDLE |
| Bridge.LastGateValue | rpi2/mqtt_bridge.c:126-128 | the last gate value published is CLOSED if and only if the last found state is IDLE |
| Bridge.LastOpening | rpi2/gate_main.c:78-203 | the family of a state tells how IDLE was last left |
| Bridge.EventsAreReal | rpi2/mqtt_bridge.c:57-142 | under any subsampling the events map one to one and in order to real changes out of IDLE with the same reason, each made after the poll before the one that reports it and no later than that poll |
| Bridge.ReportsAllIffCaught | rpi2/mqtt_bridge.c:91-142 | the published events are exactly the driver's openings, in order and with their reasons, if and only if every opening is caught by two successive polls |
| Bridge.CoarseSamplingMisses | rpi2/mqtt_bridge.c:101-122 | a run of the gate driver (a press, then a timed-out close) whose opening two successive polls miss |
| Bridge.FineSamplingCatches | rpi2/mqtt_bridge.c:101-122 | when the stays before and after an opening are polled it is caught |
| Bridge.FineSamplingReportsAll | rpi2/mqtt_bridge.c:91-142 | when every stay is polled the events are exactly the openings in order |
| Bridge.BridgeOverAllRuns | rpi2/gate_main.c:238-272 | for every run of the gate driver: no event without its opening since the previous poll, and all openings reported exactly when each is caught |
| Debounce.WrappedTestAgrees | rpi2/gate_hw.c:240-245 | for any two times the wrapping test agrees with the plain comparison if and only if the counter sees the sign of the time past the window as it is |
| Debounce.WrappedTestAgreesWithinHalf | rpi2/gate_hw.c:240-245 | it agrees for all presses within half the range |
| Debounce.LongSilenceTurnsAway | rpi2/gate_hw.c:243-245 | half the range after the window is over, a press is still turned away |
| Debounce.TimeAhead | rpi2/gate_hw.c:33-33 | a stored time up to a counter range ahead (the initial 0) turns a press away if and only if it is, the window counted in, at most half the range ahead |
| Debounce.AcceptsGreedily | rpi2/gate_hw.c:239-254 | the accepted presses are the only choice that keeps accepted ones a window apart and turns away only presses less than a window after an accepted one |
| Debounce.Switch.Handle | rpi2/gate_hw.c:239-254 | accepts exactly what the counter takes for past the window, at any time; within half the range that is from a window after the last accepted press on |
| Debounce.Switch.HandleAll | rpi2/gate_hw.c:239-254 | any sequence without a silence of half the range is debounced |
| Dashboard.LatestStateIsNewest | rpi3/db.py:122-137 | the state read is that of the greatest index with a state in the shared table, and none only if no row has one |
| Dashboard.LatestDistanceIsNewest | rpi3/db.py:140-155 | the same for distances |
| Dashboard.RecentAreNewest | rpi3/db.py:192-205 | the events read are the last ones of the log, newest first, as many as there are up to the limit |
| Dashboard.FollowKeepsAlike | rpi3/static/dashboard.js:209-261 | following one well-formed message keeps a page like a freshly opened one |
| Dashboard.ShowsTheStream | rpi3/static/dashboard.js:73-207 | a page opened on a stream shows, from its messages alone: slots and distances of the last message that says something, the number of EMPTY slots, lot and gate of the last message on their topic, the last ten event rows newest first |
| Dashboard.ApplyKeepsWhatIsUntold | rpi3/static/dashboard.js:191-206 | a snapshot without a lot or gate state or events leaves those on the page |
| Dashboard.SnapshotPlusLive | rpi3/db.py:208-234 | snapshot of any prefix plus live suffix shows what a snapshot of the whole log shows, and that is what the messages say |
| Dashboard.SafeMessages | rpi3/mqtt_handler.py:141-239 | a message is followed correctly from every stream if and only if it is well formed |
| Dashboard.Unfollowed | rpi3/mqtt_handler.py:141-239 | for every other message, a stream after which the page goes wrong |
| Dashboard.LogOnlyGrows | rpi3/mqtt_handler.py:141-239 | every message but a heartbeat adds one row and none is lost |
| Dashboard.Database.HandleMessage | rpi3/mqtt_handler.py:204-239 | the tables after a message, each an extension of what it was, with one row more unless it was a heartbeat |
| Dashboard.Database.GetDashboardState | rpi3/db.py:208-234 | states and distances each from the newest row that has any, lot and gate from the last rows, the last ten events newest first; UNKNOWN or nothing where there is none |
| Dashboard.Browser.AppendEvent | rpi3/static/dashboard.js:150-153 | the new event comes first, the others move down one place, and only what passes the tenth is dropped |
| Dashboard.Browser.ApplyState | rpi3/static/dashboard.js:181-207 | the page after a snapshot |
| Dashboard.Browser.HandleMqttMessage | rpi3/static/dashboard.js:209-261 | the page after a message |
| Dashboard.Watch | rpi3/static/dashboard.js:181-261 | a server that logs a stream and a page opened part-way through it show what the whole log shows, which is what the messages say |

## Left out

- Module loading and removal, GPIO, interrupt and device registration, error unwinding: kernel plumbing.
- The buzzer, the entry and exit lamps and their blinking: they influence nothing that is modelled.
- `gate_close` of the kernel driver (rpi2/gate_hw.c:75-93): nothing calls it.
- The ioctl of the slot driver, interrupted system calls and failing copies to or from user space.
- Failing publishes, broker internals, lost connections other than as redelivery and resubscription; publishing is taken to succeed.
- Work of the timer callback on the two slots as one unit: it is modelled as one step per slot in any order, which allows more runs than the code.
- Memory ordering: accesses to the plain fields `lock_pending`, `occupy_start` and `motor_step` are taken as sequentially consistent.
- The four pins are switched one by one in the code; the model takes a pattern as one change, so the patterns in between are not modelled.
- The tick rate and the width of the tick counter: the results hold for every even range and every window below half of it.
- A missing echo edge: the code waits for it for ever, and so does the model; nothing is claimed about recovery.
- `ultrasonic_measure_cm` as a polling loop (rpi2/gate_hw.c:184-237): a sample is "no echo in time" or an echo of some length.
- `main` of the user-space gate (rpi2/main.c): its state machine is not modelled, only which thread calls which gate routine (its main loop opens, closes and closes interruptibly, its switch thread opens); its claims about IDLE and about presses do not hold under every schedule.
- The power-on move of the user-space controller (rpi2/gate_controller.c:135-137): the model starts where it ends.
- UserController.Controller.GateCloseInterruptible: models the caller's check by the 15 answers it gives; what the check itself does is not part of it.
- The truncation of an MQTT payload to 254 bytes in the bridge (rpi2/mqtt_bridge.c:74-76): lot messages are far shorter.
- StatusText.RoundTrip: integers are unbounded, as printed numbers outside the range of int do not occur.
- Event and update timestamps, payload columns, heartbeats, node status and the kernel status device of RPI3.
- Dashboard.SnapshotPlusLive: the snapshot is taken as applied before the first live message; JSON is abstracted to the fields read, and values that are not text (slots) or whole numbers (distances) are not modelled.
- The slot and distance topics between RPI1 and RPI3 are covered by Daemon and Dashboard separately; only the lot topic is carried end to end.
- Styling and the page template.
