# Verification model of the BrainCo hand stack

A Dafny model of the control software around the BrainCo Revo2 hand and the RM65 arm, with proofs about it.

* **EtherCAT driver, master and slave.** `Lifecycle` is the driver as a transition system: the lifecycle thread,
  the health thread and any number of I/O threads interleave single accesses to the mutex, the three flags, the
  master and its cached bus state. `LifecycleSafety` holds its invariants, `LifecycleSections` the atomicity of its
  critical sections, `LifecycleShutdown` and `LifecycleRelease` its liveness, `LifecycleReach` the runs that lead
  from the initial state to its failures. `BusMonitor` is that cache and the start-up that waits for it.
  `Flattening`, `EthercatDriver`, `Revo2Codec`, `Revo2Slave`, `BusCycle`, `DomainCycle` and `ActivationHold` follow
  the process data from the joints through the aggregated buffers into the byte image and back. `EcMaster` is the
  PDO bookkeeping, `PdoChannel` the generic scaled and masked channel.
* **Transport and ros2_control component.** `CanfdSession` and `HandApi` are the process-wide CAN FD slot and the API
  objects whose config the sessions refer to; `HandHardware` is the limits, scales and goals of the component.
* **RM65/Revo2 bridge.** `ArmTrajectory` is the arm action, `HandCodec` the way from angles to registers,
  `HandWrite` the retry and fallback machine with the hand trajectory callbacks.
* **Tools.** `PoseSequence` is the arm pose sequence with its IK choice and jump guard, `PoseScript` the order of all
  it sends, `LineFraming` the newline framing of the TCP bridge. `Names`, `Poses`, `Numbers`, `Bytes` and `Wrappers`
  are shared.

Objects whose methods update fields are classes; their methods are proved equal to functions on values, and the
properties are lemmas about those functions and about runs of them. Answers of the outside world (SDK calls, IK
replies, bus reports, scheduling) are parameters over which every theorem quantifies. Doubles are
`Fin(real) | NonFinite` where the code asks whether a number is finite, and reals elsewhere.

## Where the code falls short of its intent

* `on_deactivate` joins the health thread while holding the mutex. If a deactivation is pending at that moment the
  join need not finish, even under a fair schedule (`ShutdownJoinsIff`); one access to a failed bus before it is
  enough to get there (`FaultThenStopMayHang`).
* After the health thread has released the master by itself, it is still joinable; the next activation that gets
  as far as starting a thread ends the process (`TerminatesIff`, `ReactivationMayTerminate`).
* The modules' operational flags outlive an activation. A later start-up can end after one cycle without any slave
  having been reported since (`EndsUnreportedIff`, `SecondActivationDoesNot`).
* The comment on the command fallback speaks of the state with the same index; the guard only checks the whole
  buffer, so a joint with more commands than states falls back to another joint's state (`FallbackOwner`, `FallbackReadsNeighbour`).
* In per-mille mode a hand that reports a position outside 1 to 1000 is moved at activation (`NoJumpAtActivation`).
* A PDO mask of two to seven bits makes a write replace the whole byte (`OutsideMaskPreservedIff`).
* A negative configured maximum becomes a negative minimum, and goals wrap at 16 bits (`NoWrapIff`).

## Model

| member | source | states |
|---|---|---|
| LifecycleSafety.NextKeepsInv | brainco_hardware/stark_ethercat/stark_ethercat_driver/src/stark_ethercat_driver.cpp:302-589 | every step of every thread keeps the mutex exclusive to the critical section that is inside it, the flags consistent with the master, and the health thread alive exactly as the flags say |
| LifecycleSafety.BusDiscipline | brainco_hardware/stark_ethercat/stark_ethercat_driver/src/stark_ethercat_driver.cpp:302-589 | in every interleaving a free mutex and `activated_` imply an active master; process data is exchanged only by the holder of the mutex with the master active, `readData`/`writeData` only while `activated_`, and never by the health thread |
| LifecycleSafety.PendingClearedOnlyByHealth | brainco_hardware/stark_ethercat/stark_ethercat_driver/src/stark_ethercat_driver.cpp:476-482 | a health thread that waits for the mutex always still finds `deactivate_pending_` set, and no other thread ever clears it |
| LifecycleSections.RequestedOnlyOnFault | brainco_hardware/stark_ethercat/stark_ethercat_driver/src/stark_ethercat_driver.cpp:464-474 | in every run `deactivate_pending_` is only set on an activated driver whose cache says that the link is down, no slave responds or none is operational |
| LifecycleSections.ReleasedOnlyForFault | brainco_hardware/stark_ethercat/stark_ethercat_driver/src/stark_ethercat_driver.cpp:476-482 | in every run the health thread releases an active master only for such a request, not cleared since |
| LifecycleSections.SectionsAreAtomic | brainco_hardware/stark_ethercat/stark_ethercat_driver/src/stark_ethercat_driver.cpp:302-589 | over every interleaving what a critical section of any thread does to the flags, the master and the cache, and its process data on the bus, is decided by the state in which it got the mutex: read and write exchange once or request a deactivation, the health thread checks or releases, `on_activate` starts up and reads or fails, `on_deactivate` takes everything down |
| LifecycleSafety.FaultLatch | brainco_hardware/stark_ethercat/stark_ethercat_driver/src/stark_ethercat_driver.cpp:464-474 | over whole runs: from an unhealthy cache outside start-up no thread touches the bus and the cache cannot recover until a new activation reaches its start-up cycles |
| LifecycleSafety.SecondActivationTerminates | brainco_hardware/stark_ethercat/stark_ethercat_driver/src/stark_ethercat_driver.cpp:452-455 | once past its test, an activation ends in `std::terminate` exactly if an earlier health thread was never joined, whatever the other threads do meanwhile |
| LifecycleSafety.JoinableIffLastSpawned | brainco_hardware/stark_ethercat/stark_ethercat_driver/src/stark_ethercat_driver.cpp:454-498 | in every run the health thread is joinable exactly if its last start was not followed by a join in `on_deactivate`; releasing the master or returning does not change that |
| LifecycleSafety.TerminatesIff | brainco_hardware/stark_ethercat/stark_ethercat_driver/src/stark_ethercat_driver.cpp:452-455 | a live process ends at a step of a run exactly if that step starts a health thread and the last one started was never joined |
| LifecycleShutdown.FairnessJoins | brainco_hardware/stark_ethercat/stark_ethercat_driver/src/stark_ethercat_driver.cpp:490-499 | if nothing is pending when the join is approached, the join finishes in every fair infinite execution |
| LifecycleShutdown.HungForever | brainco_hardware/stark_ethercat/stark_ethercat_driver/src/stark_ethercat_driver.cpp:476-498 | a shutdown waiting for the thread that waits for its mutex is a state no step of any thread leaves |
| LifecycleShutdown.HangingExecution | brainco_hardware/stark_ethercat/stark_ethercat_driver/src/stark_ethercat_driver.cpp:476-498 | a fair infinite execution, spelled out, in which the join never finishes |
| LifecycleShutdown.ShutdownJoinsIff | brainco_hardware/stark_ethercat/stark_ethercat_driver/src/stark_ethercat_driver.cpp:490-499 | from the moment `on_deactivate` holds the mutex, the join finishes under every fair schedule if and only if no deactivation is pending or there is no health thread |
| LifecycleReach.FaultReachable | brainco_hardware/stark_ethercat/stark_ethercat_driver/src/stark_ethercat_driver.cpp:302-541 | from the initial state, for every healthy and every unhealthy report: activation on a healthy bus, then reads until the periodic check caches the fault |
| LifecycleReach.FaultThenStopMayHang | brainco_hardware/stark_ethercat/stark_ethercat_driver/src/stark_ethercat_driver.cpp:490-528 | continued by one access to the failed bus and `on_deactivate` this reaches, from the initial state, a shutdown that need not end |
| LifecycleReach.ReactivationMayTerminate | brainco_hardware/stark_ethercat/stark_ethercat_driver/src/stark_ethercat_driver.cpp:302-485 | continued by the health thread releasing the master and a second activation it reaches the end of the process |
| LifecycleRelease.PendingIsHonoured | brainco_hardware/stark_ethercat/stark_ethercat_driver/src/stark_ethercat_driver.cpp:476-482 | in every execution from the initial state a pending deactivation leads to a released master, unless a lifecycle call comes in between: the health thread is scheduled again and again and its blocking lock is not passed over for ever |
| LifecycleRelease.FaultIsReleased | brainco_hardware/stark_ethercat/stark_ethercat_driver/src/stark_ethercat_driver.cpp:454-541 | the same from an unhealthy cache on which nobody has acted yet: fair health and I/O threads find the fault, mark it and release the master, if some `try_lock` succeeds again and again |
| Flattening.CellsDisjoint | brainco_hardware/stark_ethercat/stark_ethercat_driver/src/stark_ethercat_driver.cpp:75-88 | no two interfaces share an aggregated cell, for any interface counts |
| Flattening.CellsCover | brainco_hardware/stark_ethercat/stark_ethercat_driver/src/stark_ethercat_driver.cpp:75-88 | every aggregated cell belongs to some interface of some joint |
| Flattening.ScatterGather | brainco_hardware/stark_ethercat/stark_ethercat_driver/src/stark_ethercat_driver.cpp:531-541 | splitting what was flattened gives the joints their own rows back |
| Flattening.GatherScatter | brainco_hardware/stark_ethercat/stark_ethercat_driver/src/stark_ethercat_driver.cpp:565-585 | flattening what was split gives the aggregated buffer back |
| EthercatDriver.Driver.OnInit | brainco_hardware/stark_ethercat/stark_ethercat_driver/src/stark_ethercat_driver.cpp:56-88 | offsets are the prefix sums, buffers have the summed sizes and start non-finite |
| EthercatDriver.Driver.ReadStates | brainco_hardware/stark_ethercat/stark_ethercat_driver/src/stark_ethercat_driver.cpp:531-541 | after `read` the joints hold exactly the split aggregated states, nothing else changes |
| EthercatDriver.Driver.GatherCommands | brainco_hardware/stark_ethercat/stark_ethercat_driver/src/stark_ethercat_driver.cpp:565-585 | after `write` the aggregated commands are the flattened commands, with every non-finite one replaced from the state buffer |
| EthercatDriver.Driver.InitCommands | brainco_hardware/stark_ethercat/stark_ethercat_driver/src/stark_ethercat_driver.cpp:424-450 | on activation joint states, joint commands and aggregated commands all agree with the states just read |
| EthercatDriver.FiniteCommandsPassThrough | brainco_hardware/stark_ethercat/stark_ethercat_driver/src/stark_ethercat_driver.cpp:565-585 | finite commands reach the aggregated buffer unchanged and can be split back out of it |
| EthercatDriver.FallbackOwner | brainco_hardware/stark_ethercat/stark_ethercat_driver/src/stark_ethercat_driver.cpp:565-583 | the value that replaces a non-finite command is the joint's own state of that index if and only if the joint has one; otherwise, inside the buffer, it is a later joint's state |
| EthercatDriver.StaysNonFiniteIff | brainco_hardware/stark_ethercat/stark_ethercat_driver/src/stark_ethercat_driver.cpp:565-583 | a command stays non-finite if and only if it was and the buffer holds no finite state at its place |
| EthercatDriver.FallbackReadsNeighbour | brainco_hardware/stark_ethercat/stark_ethercat_driver/src/stark_ethercat_driver.cpp:574-580 | an input: a first joint with two commands and one state follows the second joint's state with its second command |
| Revo2Codec.EncodeDecoded | brainco_hardware/stark_ethercat/brainco_hand_ethercat_driver/src/revo2_joints_system_slave.cpp:778-789 | decoding and encoding a word gives the word back if and only if the device counts physically or the word lies in 1 to 1000; otherwise the nearer end |
| Revo2Codec.DecodedUnits | brainco_hardware/stark_ethercat/brainco_hand_ethercat_driver/src/revo2_joints_system_slave.cpp:497-604 | the physical units of the received words, positions unsigned only in physical mode |
| Revo2Codec.SyncManagersCoverChannels | brainco_hardware/stark_ethercat/brainco_hand_ethercat_driver/src/revo2_joints_system_slave.cpp:217-244 | exactly one sync manager carries each channel, an output one for 0 to 6 and an input one for the others; none points past the channels; one end mark, last |
| Revo2Codec.ChannelsAreBytes | brainco_hardware/stark_ethercat/brainco_hand_ethercat_driver/src/revo2_joints_system_slave.cpp:168-215 | all declared lengths are whole bytes |
| Revo2Codec.ChannelObjects | brainco_hardware/stark_ethercat/brainco_hand_ethercat_driver/src/revo2_joints_system_slave.cpp:168-215 | object index of every channel, and sub-indices that count from 1 within each object |
| Revo2Slave.DirectionsRespected | brainco_hardware/stark_ethercat/brainco_hand_ethercat_driver/src/revo2_joints_system_slave.cpp:293-604 | `processData` treats each channel as its sync manager's direction says and changes no byte outside its declared length |
| Revo2Codec.DecodedAt | brainco_hardware/stark_ethercat/brainco_hand_ethercat_driver/src/revo2_joints_system_slave.cpp:497-604 | decoding a channel puts finger i's word at state 3 i + k of its own kind and leaves every other state alone |
| Revo2Slave.Slave.ProcessData | brainco_hardware/stark_ethercat/brainco_hand_ethercat_driver/src/revo2_joints_system_slave.cpp:293-604 | each channel, in place: output channels write their payload and nothing else, input channels write only states, others nothing |
| BusCycle.RunCycle | brainco_hardware/stark_ethercat/stark_ethercat_interface/src/ec_master.cpp:302-305 | the inner loop over the channels of one entry |
| BusCycle.CycleSerialises | brainco_hardware/stark_ethercat/stark_ethercat_interface/src/ec_master.cpp:365-372 | a cycle leaves the image that writing the output message in one piece leaves: mode, six targets, six durations, zeros |
| BusCycle.SerialisedPart | brainco_hardware/stark_ethercat/brainco_hand_ethercat_driver/src/revo2_joints_system_slave.cpp:293-495 | with disjoint channels each part of a serialised message is found at its own channel |
| BusCycle.SerialiseStaysInside | brainco_hardware/stark_ethercat/brainco_hand_ethercat_driver/src/revo2_joints_system_slave.cpp:168-189 | no byte outside the declared lengths is written |
| BusCycle.CycleImage | brainco_hardware/stark_ethercat/brainco_hand_ethercat_driver/src/revo2_joints_system_slave.cpp:293-530 | after a cycle every output channel holds its payload, every input channel is as received, every other byte is untouched |
| BusCycle.InputChannel | brainco_hardware/stark_ethercat/brainco_hand_ethercat_driver/src/revo2_joints_system_slave.cpp:497-604 | after a cycle the states are the decoded words that were received |
| BusCycle.SentTarget | brainco_hardware/stark_ethercat/brainco_hand_ethercat_driver/src/revo2_joints_system_slave.cpp:311-352 | the word sent for a finger is its target modulo 2^16 |
| BusCycle.SentSettings | brainco_hardware/stark_ethercat/brainco_hand_ethercat_driver/src/revo2_joints_system_slave.cpp:296-380 | channel 0 says multi-finger mode and channel 2 the configured duration for every finger |
| BusCycle.SentZeros | brainco_hardware/stark_ethercat/brainco_hand_ethercat_driver/src/revo2_joints_system_slave.cpp:382-495 | the single-finger part of the message is zero |
| BusCycle.SentNearest | brainco_hardware/stark_ethercat/brainco_hand_ethercat_driver/src/revo2_joints_system_slave.cpp:311-352 | the word sent says the finite command, or for a non-finite one the position state, to half a unit of the device, per-mille words beyond the range its ends; without a command interface 0 |
| BusCycle.PositionsAgree | brainco_hardware/stark_ethercat/brainco_hand_ethercat_driver/src/revo2_joints_system_slave.cpp:497-530 | the slave's own copy of the positions agrees with the position states |
| BusCycle.NonFiniteHoldsPosition | brainco_hardware/stark_ethercat/brainco_hand_ethercat_driver/src/revo2_joints_system_slave.cpp:326-340 | from the second cycle on a non-finite command sends the position decoded in the cycle before |
| DomainCycle.OwnChannelsOnly | brainco_hardware/stark_ethercat/stark_ethercat_interface/src/ec_master.cpp:302-305 | what an entry's turn makes of its states, its positions and its channels depends on no byte outside its channels |
| DomainCycle.EachAsIfAlone | brainco_hardware/stark_ethercat/stark_ethercat_interface/src/ec_master.cpp:299-306 | with channels disjoint across the entries, each slave's states, last positions and channels after a cycle over the whole domain are those of a cycle of its own channels alone |
| DomainCycle.DomainStaysInside | brainco_hardware/stark_ethercat/stark_ethercat_interface/src/ec_master.cpp:299-306 | and a byte that belongs to no entry is as received |
| DomainCycle.RunDomain | brainco_hardware/stark_ethercat/stark_ethercat_interface/src/ec_master.cpp:345-352 | the loop over all entries of the domain: each slave takes its turn on the image the ones before it left |
| ActivationHold.SlaveIndices | brainco_hardware/stark_ethercat/brainco_hand_ethercat_driver/src/revo2_joints_system_slave.cpp:272-281 | with six joints of one command and three states the driver's prefix sums are the slave's hard-coded indices |
| ActivationHold.HeldThenGathered | brainco_hardware/stark_ethercat/stark_ethercat_driver/src/stark_ethercat_driver.cpp:421-450 | the first write after activation gathers the positions activation read, whatever the states became meanwhile |
| ActivationHold.NoJumpAtActivation | brainco_hardware/stark_ethercat/stark_ethercat_driver/src/stark_ethercat_driver.cpp:421-450 | across driver, master and slave: the first write sends finger j the raw word received at activation if and only if the device counts physically or that word lies in 1 to 1000 |
| EcMaster.DomainInfo.Register | brainco_hardware/stark_ethercat/stark_ethercat_interface/src/ec_master.cpp:178-225 | appending one request keeps the list: all registrations in call order, then one empty element; earlier entries keep their cells |
| EcMaster.DomainInfo.OneTerminator | brainco_hardware/stark_ethercat/stark_ethercat_interface/src/ec_master.cpp:34-45 | the list has one more element than channels were asked for, the last is empty, and every other one resolves to a cell of an entry of this domain |
| EcMaster.DomainInfo.RegistrationAt | brainco_hardware/stark_ethercat/stark_ethercat_interface/src/ec_master.cpp:199-211 | registration i of request k carries the request's alias, position, vendor and product and its own channel's index and sub-index, and points at its own entry's i-th cells |
| EcMaster.DomainInfo.NoSharedCells | brainco_hardware/stark_ethercat/stark_ethercat_interface/src/ec_master.cpp:187-211 | no two registrations share an offset or bit cell |
| EcMaster.DomainInfo.StorePlaces | brainco_hardware/stark_ethercat/stark_ethercat_interface/src/ec_master.cpp:227-240 | storing through the pointers of the list leaves every registration before the first zero index with its own place and every other as it was |
| EcMaster.DomainInfo.AllListedIff | brainco_hardware/stark_ethercat/stark_ethercat_interface/src/ec_master.cpp:222-224 | the whole list is taken if and only if no registered channel has index 0 |
| EcMaster.DomainInfo.PlacesReachEntries | brainco_hardware/stark_ethercat/stark_ethercat_interface/src/ec_master.cpp:300-306 | the place a registration holds is the one its entry's processing loop reads for that channel |
| EcMaster.Master.AddSlave | brainco_hardware/stark_ethercat/stark_ethercat_interface/src/ec_master.cpp:82-151 | over any sequence of calls a domain's list gains exactly this slave's registrations, or nothing on the two error paths; the call is defined if and only if every domain it lacks can be created |
| BusMonitor.Monitor.AddSlaves | brainco_hardware/stark_ethercat/stark_ethercat_interface/src/ec_master.cpp:82-110 | each activation appends one element for every module whose configuration was obtained, again and again |
| BusMonitor.JoinedOnce | brainco_hardware/stark_ethercat/stark_ethercat_interface/src/ec_master.cpp:95-110 | exactly the modules whose configuration was obtained, each once, in order |
| BusMonitor.Monitor.AnySlaveOperational | brainco_hardware/stark_ethercat/stark_ethercat_interface/include/stark_ethercat_interface/ec_master.hpp:97-107 | whether some cached slave state is operational |
| BusMonitor.Monitor.CheckSlaveStates | brainco_hardware/stark_ethercat/stark_ethercat_interface/src/ec_master.cpp:525-578 | the caches equal the report; a module is told exactly about the elements whose state changed, so several elements of one module are told in order |
| BusMonitor.Monitor.Receive | brainco_hardware/stark_ethercat/stark_ethercat_interface/src/ec_master.cpp:338-354 | the caches change on every tenth receiving cycle only |
| BusMonitor.ReceiveIsReceived | brainco_hardware/stark_ethercat/stark_ethercat_interface/src/ec_master.cpp:338-343 | which is the step the lifecycle model takes |
| BusMonitor.KnownWithinTen | brainco_hardware/stark_ethercat/stark_ethercat_interface/src/ec_master.cpp:338-343 | after any ten receiving cycles the cache is what the bus reported in one of them |
| BusMonitor.ToldLast | brainco_hardware/stark_ethercat/stark_ethercat_interface/src/ec_master.cpp:571-576 | a module's flag is what the last of its changed elements reports, or as it was |
| BusMonitor.Monitor.WaitForModules | brainco_hardware/stark_ethercat/stark_ethercat_driver/src/stark_ethercat_driver.cpp:371-415 | the start-up ends with the first cycle after which every module is initialised, unless the timeout has passed by then |
| BusMonitor.EndsUnreportedIff | brainco_hardware/stark_ethercat/stark_ethercat_driver/src/stark_ethercat_driver.cpp:378-396 | while no slave is reported operational, a start-up ends if and only if the modules' flags were all set before and its first cycle either does not check or finds no cached slave operational; and then after that cycle |
| BusMonitor.ActivatedKeeps | brainco_hardware/stark_ethercat/stark_ethercat_interface/src/ec_master.cpp:110-110 | adding the modules again changes neither the health of the cached bus nor whether the next start-up waits for a report |
| BusMonitor.FirstActivationWaits | brainco_hardware/stark_ethercat/stark_ethercat_driver/src/stark_ethercat_driver.cpp:330-396 | the first activation of a driver with modules never ends its start-up without a report of an operational slave |
| BusMonitor.SecondActivationDoesNot | brainco_hardware/stark_ethercat/stark_ethercat_driver/src/stark_ethercat_driver.cpp:330-396 | an input: the second activation ends its start-up after one cycle, whatever the bus reports |
| PdoChannel.CountBits | brainco_hardware/stark_ethercat/stark_ethercat_interface/include/stark_ethercat_interface/ec_pdo_channel_manager.hpp:303-314 | the shifting loop counts the set bits |
| PdoChannel.UpdatesIndependent | brainco_hardware/stark_ethercat/stark_ethercat_interface/include/stark_ethercat_interface/ec_pdo_channel_manager.hpp:129-147 | after any sequence of updates with distinct one-bit masks each bit reads back its own truth value, and a bit without a channel is as before |
| PdoChannel.BoolReadsBack | brainco_hardware/stark_ethercat/stark_ethercat_interface/include/stark_ethercat_interface/ec_pdo_channel_manager.hpp:85-88 | after such a sequence a bool channel reads the truth value written through it |
| PdoChannel.UpdateOrderIrrelevant | brainco_hardware/stark_ethercat/stark_ethercat_interface/include/stark_ethercat_interface/ec_pdo_channel_manager.hpp:129-147 | the order of those updates does not matter |
| PdoChannel.OutsideMaskPreservedIff | brainco_hardware/stark_ethercat/stark_ethercat_interface/include/stark_ethercat_interface/ec_pdo_channel_manager.hpp:132-145 | a write leaves the bits outside its mask alone, for every byte and value, if and only if the mask has at most one bit or all eight |
| PdoChannel.IntegerRoundTrip | brainco_hardware/stark_ethercat/stark_ethercat_interface/include/stark_ethercat_interface/ec_pdo_channel_manager.hpp:49-127 | an integer channel reads back the truncated number it stored, for all eight integer types |
| PdoChannel.ReciprocalChannels | brainco_hardware/stark_ethercat/stark_ethercat_interface/include/stark_ethercat_interface/ec_pdo_channel_manager.hpp:150-177 | an in-range command sent and read back through a reciprocally scaled channel is off by less than one raw unit |
| PdoChannel.StoredBits | brainco_hardware/stark_ethercat/stark_ethercat_interface/include/stark_ethercat_interface/ec_pdo_channel_manager.hpp:129-147 | a one-bit mask stores the truth value in its bit and leaves the other bits alone; a wider one stores the truncated value's bits under it |
| PdoChannel.ReadsUnderMask | brainco_hardware/stark_ethercat/stark_ethercat_interface/include/stark_ethercat_interface/ec_pdo_channel_manager.hpp:85-93 | a bitN channel reads exactly the bits under its mask |
| PdoChannel.BoolReadsUnderMask | brainco_hardware/stark_ethercat/stark_ethercat_interface/include/stark_ethercat_interface/ec_pdo_channel_manager.hpp:85-88 | a bool channel reads whether there are any |
| PdoChannel.SendsWhat | brainco_hardware/stark_ethercat/stark_ethercat_interface/include/stark_ethercat_interface/ec_pdo_channel_manager.hpp:150-177 | what an update sends: the finite command, scaled, unless overridden; failing that the default as it stands; nothing without permission to write |
| PdoChannel.StoresOutput | brainco_hardware/stark_ethercat/stark_ethercat_interface/include/stark_ethercat_interface/ec_pdo_channel_manager.hpp:95-127 | an integer channel then holds that value without its fraction; otherwise nothing changes |
| PdoChannel.ReadsScaled | brainco_hardware/stark_ethercat/stark_ethercat_interface/include/stark_ethercat_interface/ec_pdo_channel_manager.hpp:150-177 | an input update puts the scaled raw number into its own state and nowhere else |
| PdoChannel.CommandArrives | brainco_hardware/stark_ethercat/stark_ethercat_interface/include/stark_ethercat_interface/ec_pdo_channel_manager.hpp:150-177 | a command sent by an update and read by another through reciprocal scaling is in the state, off by less than one raw unit |
| PdoChannel.Channel.Read | brainco_hardware/stark_ethercat/stark_ethercat_interface/include/stark_ethercat_interface/ec_pdo_channel_manager.hpp:49-93 | the value and `last_value` are the scaled contents of the channel's bytes |
| PdoChannel.Channel.Write | brainco_hardware/stark_ethercat/stark_ethercat_interface/include/stark_ethercat_interface/ec_pdo_channel_manager.hpp:95-148 | the channel's own bytes get the stored form and no other byte changes |
| PdoChannel.Channel.Update | brainco_hardware/stark_ethercat/stark_ethercat_interface/include/stark_ethercat_interface/ec_pdo_channel_manager.hpp:150-177 | the object changes the image, the states and `last_value` as the value-level update does, whose sending, storing and reading the rows before describe |
| CanfdSession.CanSession.Open | brainco_hardware/brainco_hand_driver/src/canfd_session.cpp:32-104 | a session object opens as the value-level step says, on every failure path |
| CanfdSession.CanSession.Close | brainco_hardware/brainco_hand_driver/src/canfd_session.cpp:106-133 | a session object closes with the config it refers to at that moment |
| CanfdSession.CanSession.HandleTx | brainco_hardware/brainco_hand_driver/src/canfd_session.cpp:168-198 | a started session transmits one frame with at most the first 64 bytes; 0 exactly if the driver took it |
| CanfdSession.CanSession.HandleRx | brainco_hardware/brainco_hand_driver/src/canfd_session.cpp:200-234 | the first received frame's id and at most 64 of its bytes; -1 and nothing written without a place for each output, a started device or a frame |
| CanfdSession.CloseSettles | brainco_hardware/brainco_hand_driver/src/canfd_session.cpp:106-133 | closing the active session frees the slot, the handle and the device in an order the ledger accepts; closing any other session changes nothing outside it |
| CanfdSession.OpenSettles | brainco_hardware/brainco_hand_driver/src/canfd_session.cpp:32-104 | an open that ends on any of its failure paths leaves no device and no handle behind; it succeeds exactly if all four calls do |
| CanfdSession.OpenOutcome | brainco_hardware/brainco_hand_driver/src/canfd_session.cpp:32-104 | on every bus: success exactly if no other session holds the slot and all four calls succeed, and exactly then the session is started; the calls of a success, with the configured master id; no call at all on a busy slot |
| CanfdSession.OpensMatchCloses | brainco_hardware/brainco_hand_driver/src/canfd_session.cpp:43-79 | an orderly trace has one close for every successful open of the same type and card, except for the device still open |
| CanfdSession.ForeignConfigBreaksLedger | brainco_hardware/brainco_hand_driver/src/brainco_hand_api.cpp:88-89 | closing with a config that names another device is a disorderly trace, exactly then: why `configure` closes first |
| HandApi.StepKeepsInv | brainco_hardware/brainco_hand_driver/src/brainco_hand_api.cpp:81-113 | every call on every API object keeps ownership: one slot, its session alive, all marks of being open in agreement, the ledger orderly |
| HandApi.Ownership | brainco_hardware/brainco_hand_driver/src/canfd_session.cpp:32-133 | after every run of calls on any number of API objects the slot, started flag, handle, raw handler, callbacks flag and receive buffer of each session agree |
| HandApi.OneActive | brainco_hardware/brainco_hand_driver/src/canfd_session.cpp:36-41 | at most one session is started |
| HandApi.CallbackReachesStarted | brainco_hardware/brainco_hand_driver/src/canfd_session.cpp:142-162 | while callbacks forward they reach a live session whose device is started and whose buffer is not empty |
| HandApi.DevicesConserved | brainco_hardware/brainco_hand_driver/src/brainco_hand_api.cpp:81-96 | over every run of configure, open and close, opens and closes of a type and card differ by one exactly if a started session's config names that device, and by zero otherwise |
| HandApi.ConfigTakesEffect | brainco_hardware/brainco_hand_driver/src/brainco_hand_api.cpp:81-96 | after every run each API object has the config of its last `configure`, and a CAN FD session exactly if that config asks for one |
| HandApi.BraincoHandApi.Configure | brainco_hardware/brainco_hand_driver/src/brainco_hand_api.cpp:81-96 | the object closes its session under the old config before the shared config changes, then builds a new session |
| HandApi.BraincoHandApi.Open | brainco_hardware/brainco_hand_driver/src/brainco_hand_api.cpp:98-105 | opening through the API is opening the session under the API's config |
| HandHardware.Hardware.InitParameters | brainco_hardware/brainco_hand_driver/src/brainco_hand_hardware.cpp:406-449 | negative minimum, crossed limits, zero scales and out-of-range durations normalised as the closed form says |
| HandHardware.NoWrapIff | brainco_hardware/brainco_hand_driver/src/brainco_hand_hardware.cpp:258-265 | no command whatever makes a goal wrap at 16 bits if and only if the configured maximum is above -1/2 and both configured limits are below 65535 1/2 |
| HandHardware.NormalisedIsNormal | brainco_hardware/brainco_hand_driver/src/brainco_hand_hardware.cpp:421-449 | after normalisation no scale is zero, the limits are ordered and the duration is in 1 to 65535; parameters already so, with a minimum of at least 0, are kept |
| HandHardware.ResendsIff | brainco_hardware/brainco_hand_driver/src/brainco_hand_hardware.cpp:258-265 | for all parameters and all raw numbers: writing back a position just read sends the same raw number if and only if the scaled, clamped value lies in the window of a number equal to it modulo 2^16 |
| HandHardware.ResendsInLimitsIff | brainco_hardware/brainco_hand_driver/src/brainco_hand_hardware.cpp:258-265 | with limits that fit into 16 bits, and inside them: if and only if the scales move it by less than half a unit or the limit on that side is nearer |
| HandHardware.HoldsPosition | brainco_hardware/brainco_hand_driver/src/brainco_hand_hardware.cpp:119-122 | activate and write resend every raw position inside the limits if the product of the scales is within less than 1/(2 max) of 1 |
| HandHardware.Hardware.OnActivate | brainco_hardware/brainco_hand_driver/src/brainco_hand_hardware.cpp:102-127 | commands become the positions exactly if the transport is open |
| HandHardware.Hardware.Read | brainco_hardware/brainco_hand_driver/src/brainco_hand_hardware.cpp:174-229 | the first six joints take over the scaled status, all others keep theirs |
| HandHardware.Hardware.Write | brainco_hardware/brainco_hand_driver/src/brainco_hand_hardware.cpp:231-295 | only an open and active component sends: one clamped, rounded goal and one duration per joint, at most six |
| ArmTrajectory.Execute | revo2_with_rm65_demo/rm_revo2_bridge/rm_revo2_bridge/rm_revo2_bridge_node.py:622-702 | the callback publishes, sleeps and ends as the specification says, for every trajectory and parameter set |
| ArmTrajectory.WalkPublishesPlan | revo2_with_rm65_demo/rm_revo2_bridge/rm_revo2_bridge/rm_revo2_bridge_node.py:660-697 | what the loop publishes is the plan: first waypoint, then move by move the blends |
| ArmTrajectory.StepBoundIff | revo2_with_rm65_demo/rm_revo2_bridge/rm_revo2_bridge/rm_revo2_bridge_node.py:679-694 | consecutive commands differ by at most the maximum step in every joint if and only if every move is short, or is interpolated over a positive interval with a limit above 1e-9 (or a rate that cuts it finely enough) |
| ArmTrajectory.FewestSegments | revo2_with_rm65_demo/rm_revo2_bridge/rm_revo2_bridge/rm_revo2_bridge_node.py:680-683 | an interpolated move is cut into the fewest segments that suffice for the step limit and the command rate |
| ArmTrajectory.MoveInSegments | revo2_with_rm65_demo/rm_revo2_bridge/rm_revo2_bridge/rm_revo2_bridge_node.py:684-690 | it alternates one command and one sleep per segment, each sleep the same part of max(interval, segments times minimum) |
| ArmTrajectory.RunsPaced | revo2_with_rm65_demo/rm_revo2_bridge/rm_revo2_bridge/rm_revo2_bridge_node.py:660-697 | every command of a run says the follow mode asked for, and nobody sleeps but after a command |
| ArmTrajectory.Defaults | revo2_with_rm65_demo/rm_revo2_bridge/rm_revo2_bridge/rm_revo2_bridge_node.py:646-655 | a rate, step or minimum that is not positive behaves exactly like 50 Hz, 0.02 rad, 10 ms |
| ArmTrajectory.WaypointsInOrder | revo2_with_rm65_demo/rm_revo2_bridge/rm_revo2_bridge/rm_revo2_bridge_node.py:671-697 | every waypoint is published exactly, in order, the last one last |
| ArmTrajectory.StaysBetween | revo2_with_rm65_demo/rm_revo2_bridge/rm_revo2_bridge/rm_revo2_bridge_node.py:686-689 | between two waypoints no joint leaves their interval |
| ArmTrajectory.OneTerminal | revo2_with_rm65_demo/rm_revo2_bridge/rm_revo2_bridge/rm_revo2_bridge_node.py:622-702 | each run makes exactly one terminal call, as its last act, and succeeds exactly for a complete list of joints and well-formed points |
| ArmTrajectory.RefusedIff | revo2_with_rm65_demo/rm_revo2_bridge/rm_revo2_bridge/rm_revo2_bridge_node.py:622-665 | which error code a run ends with, and that a refused one does nothing else |
| ArmTrajectory.SuccessPublishesPlan | revo2_with_rm65_demo/rm_revo2_bridge/rm_revo2_bridge/rm_revo2_bridge_node.py:660-702 | a successful run published the plan over all its waypoints |
| ArmTrajectory.SuccessTakesItsTime | revo2_with_rm65_demo/rm_revo2_bridge/rm_revo2_bridge/rm_revo2_bridge_node.py:668-694 | a successful run slept exactly the sum of the times of its moves, which is at least the largest `time_from_start`, even for out-of-order times |
| ArmTrajectory.SuccessOnTimeIff | revo2_with_rm65_demo/rm_revo2_bridge/rm_revo2_bridge/rm_revo2_bridge_node.py:668-694 | with times that do not fall it lasts until the last `time_from_start`, if and only if the minimum pause stretches no move |
| ArmTrajectory.AbortedIsPrefix | revo2_with_rm65_demo/rm_revo2_bridge/rm_revo2_bridge/rm_revo2_bridge_node.py:660-665 | a run aborted at a malformed point did what the trajectory cut before it does, and then aborted; at a malformed first point it only aborted |
| Names.BuildIndex | revo2_with_rm65_demo/rm_revo2_bridge/rm_revo2_bridge/rm_revo2_bridge_node.py:638-638 | a joint listed twice counts where it was last listed |
| Poses.LastNamed | revo2_with_rm65_demo/rm_revo2_bridge/rm_revo2_bridge/rm_revo2_bridge_node.py:667-667 | each arm joint gets the value at the last place that names it |
| Poses.MaxDeltaIsMax | tools/move_arm_pose_sequence.py:86-89 | the largest joint distance bounds every joint and is reached by one |
| HandCodec.QuantisationIff | revo2_with_rm65_demo/rm_revo2_bridge/rm_revo2_bridge/rm_revo2_bridge_node.py:484-495 | an angle turned to percent and back is within `max_joint_rad`/200 if and only if it lies within half a percent of the hand's range |
| HandCodec.RangeEnds | revo2_with_rm65_demo/rm_revo2_bridge/rm_revo2_bridge/rm_revo2_bridge_node.py:484-495 | the range ends at `max_joint_rad`, or 100 degrees if that is not positive; angles at or beyond an end become 0 or 100 percent |
| HandCodec.HalvesToEven | revo2_with_rm65_demo/rm_revo2_bridge/rm_revo2_bridge/rm_revo2_bridge_node.py:484-489 | a half percent goes to the even neighbour |
| HandCodec.PercentsExact | revo2_with_rm65_demo/rm_revo2_bridge/rm_revo2_bridge/rm_revo2_bridge_node.py:484-495 | whole percents survive |
| HandCodec.RemapTwice | revo2_with_rm65_demo/rm_revo2_bridge/rm_revo2_bridge/rm_revo2_bridge_node.py:51-52 | the feedback's inverse table undoes the command's |
| HandCodec.PackRegisters | revo2_with_rm65_demo/rm_revo2_bridge/rm_revo2_bridge/rm_revo2_bridge_node.py:387-405 | the packing loop, its raw mode and its pass-through for other lengths |
| HandCodec.PackedOnTheWire | revo2_with_rm65_demo/rm_revo2_bridge/rm_revo2_bridge/rm_revo2_bridge_node.py:395-405 | `high_low` words put the six values, clamped to bytes, on the wire in their order, `low_high` exchanges each pair (section 4.2 of the Modbus Application Protocol V1.1b3) |
| HandCodec.ByteOnTheWire | revo2_with_rm65_demo/rm_revo2_bridge/rm_revo2_bridge/rm_revo2_bridge_node.py:395-405 | byte by byte, each value cut to 0 to 255 |
| HandCodec.PipelineRoundTrip | revo2_with_rm65_demo/rm_revo2_bridge/rm_revo2_bridge/rm_revo2_bridge_node.py:531-569 | angles through percent, remap, packing in either order, unpacking and feedback come back as the angles of their percents |
| HandCodec.PipelineError | revo2_with_rm65_demo/rm_revo2_bridge/rm_revo2_bridge/rm_revo2_bridge_node.py:531-569 | and within `max_joint_rad`/200 of the command in range |
| HandCodec.FeedbackInRange | revo2_with_rm65_demo/rm_revo2_bridge/rm_revo2_bridge/rm_revo2_bridge_node.py:531-538 | reported values beyond 0 and 100 count as those: no published angle leaves the hand's range |
| HandWrite.RmLoopTries | revo2_with_rm65_demo/rm_revo2_bridge/rm_revo2_bridge/rm_revo2_bridge_node.py:461-473 | the rm_driver loop stops at its first acknowledged write or after retries + 1 attempts; set-up stands only between attempts |
| HandWrite.SdkLoopTries | revo2_with_rm65_demo/rm_revo2_bridge/rm_revo2_bridge/rm_revo2_bridge_node.py:418-451 | the same for the SDK loop, a raising re-initialisation included |
| HandWrite.WriteDisciplined | revo2_with_rm65_demo/rm_revo2_bridge/rm_revo2_bridge/rm_revo2_bridge_node.py:407-482 | the result is 0 exactly if the last position write was acknowledged; none follows an acknowledged one; at most retries + 1 per backend, rm_driver before SDK; a failure used them all |
| HandWrite.WriteSucceedsIff | revo2_with_rm65_demo/rm_revo2_bridge/rm_revo2_bridge/rm_revo2_bridge_node.py:453-482 | success told from the answers alone: some attempt of a backend in use would be acknowledged |
| HandWrite.WriteSpelledOut | revo2_with_rm65_demo/rm_revo2_bridge/rm_revo2_bridge/rm_revo2_bridge_node.py:407-482 | every event of a write: what each attempt carries, what stands between two attempts of a backend, and the start of the SDK between the backends |
| HandWrite.FailureCode | revo2_with_rm65_demo/rm_revo2_bridge/rm_revo2_bridge/rm_revo2_bridge_node.py:418-473 | a failed write returns the code of its last attempt: -20, -21, -22 or the SDK's own |
| HandWrite.StartedIff | revo2_with_rm65_demo/rm_revo2_bridge/rm_revo2_bridge/rm_revo2_bridge_node.py:317-320 | the SDK is up after a write if and only if it was before or this write started it; a write never starts it twice |
| HandWrite.RaisesIff | revo2_with_rm65_demo/rm_revo2_bridge/rm_revo2_bridge/rm_revo2_bridge_node.py:317-320 | a write raises if and only if it comes to the SDK and the SDK cannot be started |
| HandWrite.HandBridge.ReinitAsSdk | revo2_with_rm65_demo/rm_revo2_bridge/rm_revo2_bridge/rm_revo2_bridge_node.py:437-447 | the backend is "sdk" for the length of a re-initialisation and what it was afterwards, raised or not |
| HandWrite.HandBridge.WriteHand | revo2_with_rm65_demo/rm_revo2_bridge/rm_revo2_bridge/rm_revo2_bridge_node.py:453-482 | the whole machine, with the backend unchanged on every return and raise |
| HandWrite.AskedMeans | revo2_with_rm65_demo/rm_revo2_bridge/rm_revo2_bridge/rm_revo2_bridge_node.py:540-570 | when a trajectory is refused with -1, -2 or -3, and which value each joint gets otherwise |
| HandWrite.HandBridge.OnTrajectory | revo2_with_rm65_demo/rm_revo2_bridge/rm_revo2_bridge/rm_revo2_bridge_node.py:540-582 | the error codes, and a command remembered and published exactly if the hand acknowledged it |
| HandWrite.HandBridge.ExecuteHand | revo2_with_rm65_demo/rm_revo2_bridge/rm_revo2_bridge/rm_revo2_bridge_node.py:584-607 | one terminal call, succeed exactly for an acknowledged command, then the wait |
| PoseSequence.SeededIsNearest | tools/move_arm_pose_sequence.py:118-159 | given a seed the IK solution is nearest to it among all successes of the first collision mode that had any, within modes times max(1, attempts) requests |
| PoseSequence.ScanRaises | tools/move_arm_pose_sequence.py:149-155 | looking for it raises exactly if one of the solutions compared lacks an arm joint |
| PoseSequence.UnseededIsFirst | tools/move_arm_pose_sequence.py:145-148 | without a seed the solution is the first one of all requests |
| PoseSequence.FindsNothingIff | tools/move_arm_pose_sequence.py:118-163 | nothing is found if and only if no request of the whole budget brings a solution; the last failure's code is reported, or a timeout without any reply |
| PoseSequence.RefusedIff | tools/move_arm_pose_sequence.py:308-340 | an arm step is refused for exactly the stated reason: no orientation, no service, no solution, a missing joint, or a joint farther from the live pose than allowed |
| PoseSequence.GuardedMeans | tools/move_arm_pose_sequence.py:308-340 | a pose that is let pass is that of such a solution and, with the guard on and the live pose known, no farther from the live pose than allowed |
| PoseSequence.StepSafe | tools/move_arm_pose_sequence.py:295-456 | each step sends at most one arm goal, and only the pose let pass |
| PoseSequence.SequenceSafe | tools/move_arm_pose_sequence.py:294-456 | over every step list the arm goals sent are, in order, the poses let pass, and the pose that seeds the next IK request is the last one sent |
| PoseSequence.SeedIsLastGoal | tools/move_arm_pose_sequence.py:96-117 | the IK request of each step is seeded with the last arm goal sent, before any with the live pose |
| PoseSequence.EveryGoalGuarded | tools/move_arm_pose_sequence.py:294-456 | every arm goal in the trace of every run was sent by an arm step whose IK solution has that pose and whose jump check passed it against the live pose read at that check |
| PoseScript.StepFollowsScript | tools/move_arm_pose_sequence.py:345-456 | each step appends the first events of its script, all of them if it does not fail, and fails exactly with the exception of the first part that fails |
| PoseScript.StepOrder | tools/move_arm_pose_sequence.py:352-440 | whether a step fails or not: under arm_then_hand nothing goes to the hand before the arm has arrived, under hand_then_arm nothing to the arm before the hand, in parallel both goals are out before the arm has arrived |
| PoseScript.StepHand | tools/move_arm_pose_sequence.py:352-456 | a step that goes through sends the hand exactly one command, with its positions and time, or none if hands are skipped |
| PoseScript.RunFollowsScripts | tools/move_arm_pose_sequence.py:294-456 | over every step list all events of a run, in order, are those of its steps' scripts, cut off where it failed |
| PoseScript.LiveIsLatest | tools/move_arm_pose_sequence.py:71-75 | the live pose of a run is what all joint states heard so far deliver |
| PoseScript.DeliversLast | tools/move_arm_pose_sequence.py:71-75 | which is the last one that names all arm joints |
| PoseSequence.PoseSequenceNode.FindSolution | tools/move_arm_pose_sequence.py:96-163 | the nested request loops compute that solution or that error |
| PoseSequence.PoseSequenceNode.RunSequence | tools/move_arm_pose_sequence.py:278-456 | the loop over the steps, every order and mode, ended by its first exception |
| LineFraming.AssembleSplit | tools/tcp_realtime_bridge_ros2.py:66-68 | splitting a stream loses nothing |
| LineFraming.SplitAssemble | tools/tcp_realtime_bridge_ros2.py:66-68 | and is the only reading of a stream as lines without newlines and a rest without one |
| LineFraming.SplitMore | tools/tcp_realtime_bridge_ros2.py:65-67 | lines found before more bytes arrive stay; only the rest is read on |
| LineFraming.StripIsMiddle | tools/tcp_realtime_bridge_ros2.py:68-70 | a stripped line is the middle of the line between whitespace |
| LineFraming.HandedInOrder | tools/tcp_realtime_bridge_ros2.py:66-73 | the lines that are not blank are handed over stripped, in order, and nothing else is |
| LineFraming.StripIgnoresSpace | tools/tcp_realtime_bridge_ros2.py:68-70 | whitespace around a line does not count, so CR LF and LF hand over the same |
| LineFraming.ChunkingIrrelevant | tools/tcp_realtime_bridge_ros2.py:60-65 | however a stream is cut into chunks, and whatever follows the closing, the bytes received are the stream |
| LineFraming.HandedGrows | tools/tcp_realtime_bridge_ros2.py:66-73 | a longer stream hands over what the shorter one did and only then more |
| LineFraming.Connection.Drain | tools/tcp_realtime_bridge_ros2.py:66-75 | the inner loop terminates, empties the buffer of newlines and hands over each non-empty stripped line |
| LineFraming.Connection.Serve | tools/tcp_realtime_bridge_ros2.py:60-75 | for every list of chunks the lines handed over are those of splitting the whole stream at once |

## Left out

- The IgH library, the Stark and RM SDKs, MoveIt, ROS executors, sockets and clocks: replaced by arbitrary answers.
- Launch files, URDF, YAML and string parameter parsing, logging, the interactive tools and the Modbus auto-detection.
- Single-finger mode of the slave: the constructor fixes multi-finger mode and nothing changes it.
- The touch and motor-status channels, the slave's private velocity and effort copies and its logging caches: they feed no command.
- One slave object behind several entries of a domain: `DomainCycle` gives every entry a slave of its own.
- Configuration handles left from earlier activations: in `BusMonitor` each element of the list is still answered by some report.
- Joint-bound EtherCAT modules: the aggregated buffers serve the one module bound to the GPIO.
- Infinities in `PdoChannel`: its `NonFinite` is NaN, as the code tests for it; elsewhere `NonFinite` is whatever `std::isfinite` refuses.
- Non-finite commands in the ros2_control component, NaN joint values in trajectories and IK solutions: these modules use reals.
- IEEE rounding, real-time priorities and the order of memory accesses below one shared access per step.
- The value the platform gives to an out-of-range conversion of a non-finite double: a fixed parameter (`undefinedRaw`) of the slave.
- Bit timing words handed to VCI_InitCAN, concurrent opens of two CAN FD sessions, and destroying a session without closing it.
- Distributed-clock set-up and SDO configuration of slaves.
- How _ret_code reads a number out of the SDK's answer: the number itself is the parameter.
- Late acknowledgements of rm_driver and concurrent callers of the hand write path.
- Joint state messages whose position array is shorter than their name array.
- JSON decoding and publishing of the framed lines, and the quaternion of a pose step: their results are opaque to the rest.
- The wrap of the 32-bit counter of bus cycles, and of the 32-bit PDO and buffer sizes.
- EcMaster.Master.AddSlave: after a failed domain creation the original computes the index before an empty list; the model ends in `Undefined` there and promises nothing of what that access would do.
- HandWrite.HandBridge.WriteHand: assumes that Write_Registers and the publishers return; only starting the SDK and re-initialising may raise.
- PdoChannel.ReciprocalChannels: for commands whose scaled value fits the integer type; the conversion is undefined behaviour otherwise.
