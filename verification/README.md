# Verified models of the drivers

A Dafny model of five pieces of a collection of Linux drivers, with proofs of what
each of them keeps over whole runs:

- **HC-SR04 distance sensors** (`HcsrPins`, `HcsrPinRuns`, `HcsrEcho`, `HcsrRing`,
  `HcsrLog`, `HcsrMeasure`, `HcsrDevice`). Several devices share one table of pin
  groups, GPIO lines and interrupts. Each device has an edge automaton, a ring of five
  readings, and measurement threads that interleave with its calls, with opens and with
  releases.
- **A chained hash table in the kernel** (`HashChains`, `HashTable`, `HashDriver`) and
  its **threaded client** (`HashClient`).
- **WS2812 LED strips** (`LedFrame`, `LedBitBang`, `LedSpi`): colours as cells, cells as
  register writes or SPI bytes, and back. `LedDisplay` is the rotating display program.
- **A timer callback** meant to do what nested delay loops do (`HrTimer`).

Code that changes things in place is a class whose methods are proved against functions
on values; what the drivers promise is proved about those functions. `Machine` writes out
32-bit and 64-bit arithmetic and C's division; `Runs` is a run of any state machine.

The kernel is a parameter: which lines and interrupts it grants (`HcsrPins.Kernel`), the
interrupt numbering, whether a thread can be created, clock values, and `hash_min` as any
function into 0..127. `gpio_request` may refuse any line. `request_irq` refuses a taken
number, because the driver does not ask for sharing.

## Facts about the code that the proofs bring out

- The ring is called a FIFO, but a read returns the newest entry. It is a bounded stack
  that drops its oldest entry (`HcsrMeasure.RingIsAStack`). A timestamp of 2^64-1 would
  break it, and nothing else does (`HcsrMeasure.StepStackedIff`).
- The division at the end of a measurement kills its thread on a zero count, and on a
  processor that traps on overflow (the driver is written for one that has `rdtsc`) also
  on a sum of -2^31 over a count of -1. The exact condition on the echoes accepted since
  open is `HcsrMeasure.FaultsIff`; in practice there was no echo
  (`HcsrMeasure.FaultReached`), but plausible echoes reach the second case as well
  (`HcsrMeasure.OverflowFaultReached`). The thread dies with the buffer lock, and until the
  next open or release the device publishes nothing (`HcsrMeasure.DeadWorkerStopsDevice`).
  Both of those re-initialise the lock without taking it, and then it measures again
  (`HcsrMeasure.ReopenRecovers`).
- For the same reason an open, or a release that has nothing to wait for, frees the lock
  under a thread that is sampling: two threads can then be inside
  (`HcsrMeasure.OpenLetsTwoInside`; exactly when: `HcsrMeasure.StepExclusiveIff`).
- When no thread can be created the lock is kept too: a write returns success, and a read
  waits for ever for the lock it took itself (`HcsrDevice.Device.Read`).
- A read that finds the ring empty starts a measurement without setting the flag, so a
  write can start a second one (`HcsrMeasure.ReadThenWriteStartsTwo`; exactly which steps
  do this: `HcsrMeasure.StepOneAtATimeIff`).
- `outlier_lowest` starts at 0 and moves only for a negative distance. Such a distance
  comes from a gap of at least 23200 * 2^31 ticks (`HcsrEcho.LowestStaysZeroIff`,
  `HcsrEcho.NegativeDistanceExists`).
- A read takes a distance of -1 for an empty ring. A mean of -1 can be in the ring, and
  is then dropped (`HcsrMeasure.ReadAnswersEmptyIff`, `HcsrMeasure.ReadingTakenForEmpty`).
- A pin group taken by one device and reused by another stays recorded under the first,
  and is freed with it (`HcsrPinRuns.ReusedGroupFollowsItsOwner`,
  `HcsrPinRuns.ReusedLineIsLost`).
- A second open forgets a registered interrupt (`HcsrPinRuns.OpenKeepsIrqsIff`,
  `HcsrPinRuns.InterruptIsForgotten`). It stays registered for good, and blocks every
  later CONFIG_PINS on that echo line (`HcsrPinRuns.SecondOpenBlocksForGood`).
- The delete walk of the hash table stops at the first match, which is complete exactly
  when the chain holds the key at most once (`HashChains.DeleteWalkCompleteIff`).
- DUMP refuses every bucket that no key 0..128 hashes to, so a full dump lists the map
  exactly when every bound key's bucket is reached and no chain is longer than eight
  (`HashChains.DumpListsTheMapIff`, `HashChains.DumpMissesUnreached`).
- A stored value of -1 reads like "not found" to the client
  (`HashChains.MinusOneReadsAsNotFound`); only the return code tells them apart.
- Before the first RESET the SPI frame holds bytes that are no valid code
  (`LedFrame.FramesAgreeIff`).
- The display program multiplies the repeat count by 16 in a C int, so from 2^27 on the
  steps are not what was asked for, and at 2^27 there are none
  (`LedDisplay.StepsInFullIff`).
- The table of the hash driver is the one of the most recently opened device, whatever
  file is used (`HashDriver.Driver.Open`).

## Model

| member | source | states |
|---|---|---|
| HcsrPins.PinDriver.AcquireGroup | user-space device interface for HC-SR04/HCSR_Driver.c:572-642 | the four-stage acquisition takes all lines of a group or, on any refusal, leaves the held lines as before; never requests a held line nor frees one not held |
| HcsrPins.PinDriver.UpdateGroup | user-space device interface for HC-SR04/HCSR_Driver.c:541-571 | updating a configured group changes no held line; its freeing branches are unreachable |
| HcsrPins.PinDriver.PinConfig | user-space device interface for HC-SR04/HCSR_Driver.c:378-440 | fails only when it configures and the kernel refuses the line, so an update cannot fail |
| HcsrPins.PinDriver.ConfigureInterrupt | user-space device interface for HC-SR04/HCSR_Driver.c:495-517 | registers at most one handler, for this device, and records its number and line |
| HcsrPins.PinDriver.ConfigurePins | user-space device interface for HC-SR04/HCSR_Driver.c:521-658 | the list walk equals the specification walk and keeps held lines equal to the lines of configured groups |
| HcsrPins.PinDriver.IsEdgeInterruptible | user-space device interface for HC-SR04/HCSR_Driver.c:677-689 | the loop accepts exactly the pins outside the non-echo list |
| HcsrPins.PinDriver.ConfigPinsIoctl | user-space device interface for HC-SR04/HCSR_Driver.c:905-934 | CONFIG_PINS frees the old interrupt, which is always registered for the device, and then walks |
| HcsrPins.PinDriver.ReleaseGpioPins | user-space device interface for HC-SR04/HCSR_Driver.c:327-370 | frees only held lines: those of the configured groups recorded under the device |
| HcsrPins.PinDriver.OpenDevice | user-space device interface for HC-SR04/HCSR_Driver.c:756-781 | open resets the pin and interrupt fields without freeing what they recorded |
| HcsrPins.PinDriver.ReleaseDevice | user-space device interface for HC-SR04/HCSR_Driver.c:873-896 | release frees the device's interrupt and groups and resets it |
| HcsrPinRuns.GalileoTableOk | user-space device interface for HC-SR04/HCSR_Driver.c:209-276 | the 14 groups have unique pins and pairwise disjoint lines, listed from IO13 down, and every main line can be given a direction |
| HcsrPinRuns.ConfigSucceedsIff | user-space device interface for HC-SR04/HCSR_Driver.c:905-934 | exactly when CONFIG_PINS succeeds: acceptable pins, every named free group grantable, an echo interrupt that no other device has |
| HcsrPinRuns.ConfigDone | user-space device interface for HC-SR04/HCSR_Driver.c:521-658 | after success the named groups are configured and held, the echo interrupt is registered for the device, the trigger line is on record |
| HcsrPinRuns.ConfigKeeps | user-space device interface for HC-SR04/HCSR_Driver.c:521-658 | whatever the outcome, lines and interrupts stay accounted for and only named free groups and this device change |
| HcsrPinRuns.ReleaseFreesExactly | user-space device interface for HC-SR04/HCSR_Driver.c:327-370 | a line stays held after release exactly when a group of another device uses it |
| HcsrPinRuns.ReusedGroupFollowsItsOwner | user-space device interface for HC-SR04/HCSR_Driver.c:541-547 | a device that reuses a group keeps its line after another's release exactly when that other is not the recorded owner |
| HcsrPinRuns.ReusedLineIsLost | user-space device interface for HC-SR04/HCSR_Driver.c:541-547 | a run on the board's own table in which a device loses its trigger line to the release of another |
| HcsrPinRuns.OpenKeepsIrqsIff | user-space device interface for HC-SR04/HCSR_Driver.c:756-781 | open keeps interrupts accounted for exactly when the device has none |
| HcsrPinRuns.ForgottenForGood | user-space device interface for HC-SR04/HCSR_Driver.c:887-891 | a registered interrupt that no device has on record stays registered for the same device in every later run |
| HcsrPinRuns.ForgottenBlocks | user-space device interface for HC-SR04/HCSR_Driver.c:495-512 | every CONFIG_PINS whose echo line maps to such an interrupt fails, whatever device asks |
| HcsrPinRuns.SecondOpenBlocksForGood | user-space device interface for HC-SR04/HCSR_Driver.c:756-781 | over whole runs, after a second open of a device with an interrupt every later CONFIG_PINS on that echo line fails |
| HcsrPinRuns.InterruptIsForgotten | user-space device interface for HC-SR04/HCSR_Driver.c:756-781 | a run on the board's own table that leaves an interrupt forgotten |
| HcsrPinRuns.LinesAccountedFor | user-space device interface for HC-SR04/HCSR_Driver.c:521-658 | over every interleaving held lines are exactly the lines of configured groups, each owned by a live device; interrupt numbers are always backed and devices that are not live are as new |
| HcsrPinRuns.IrqsAccountedFor | user-space device interface for HC-SR04/HCSR_Driver.c:915-922 | over every interleaving without a second open, a device has a number exactly when one handler is registered for it; only live devices have one |
| HcsrPinRuns.NothingLeftAfterRelease | user-space device interface for HC-SR04/HCSR_Driver.c:873-896 | once every device that configured is released, no line is held and no interrupt registered |
| HcsrEcho.CountersAreTheEchoes | user-space device interface for HC-SR04/HCSR_Driver.c:443-491 | for every edge sequence the state is the parity and the counters are the 32-bit sum and count, maximum and minimum of the accepted echoes |
| HcsrEcho.EchoWidth | user-space device interface for HC-SR04/HCSR_Driver.c:465-468 | with wrapping subtraction an echo of width e below 23200 * 2^31 reads e / 23200 and is accepted exactly below 9303200 |
| HcsrEcho.LowestStaysZeroIff | user-space device interface for HC-SR04/HCSR_Driver.c:475-482 | outlier_lowest is 0 exactly when no accepted distance is negative |
| HcsrEcho.NegativeDistanceExists | user-space device interface for HC-SR04/HCSR_Driver.c:465-468 | a gap that is accepted as distance -1 |
| HcsrEcho.CountersExact | user-space device interface for HC-SR04/HCSR_Driver.c:483-484 | no 32-bit overflow up to 5368709 plausible samples, and sum at most 400 times count |
| HcsrEcho.PublishedIsTheMean | user-space device interface for HC-SR04/HCSR_Driver.c:727-730 | a published distance is the floor of the mean of all accepted echoes, between their extremes and in 0..400 |
| HcsrEcho.ReadingLooksEmptyIff | user-space device interface for HC-SR04/HCSR_Driver.c:839-839 | exactly which recorded sums and counts, of either sign, make a mean look like an empty buffer |
| HcsrEcho.MeanOfMinusOneExists | user-space device interface for HC-SR04/HCSR_Driver.c:727-730 | one wide gap is enough for a mean of -1 |
| HcsrRing.WritePushesIff | user-space device interface for HC-SR04/HCSR_Driver.c:307-315 | writing a cell pushes on the bounded stack exactly when the timestamp is not 2^64-1 |
| HcsrRing.ReadPops | user-space device interface for HC-SR04/HCSR_Driver.c:280-304 | a read hands back the top and pops, and reports empty exactly for the empty stack |
| HcsrRing.HoldsOneStack | user-space device interface for HC-SR04/HCSR_Driver.c:60-75 | the cells determine the stack: valid cells form one circular arc ending at the cursor |
| HcsrDevice.Device.FifoWrite | user-space device interface for HC-SR04/HCSR_Driver.c:307-315 | the in-place write is the ring's write, for every timestamp |
| HcsrDevice.Device.FifoRead | user-space device interface for HC-SR04/HCSR_Driver.c:280-304 | the in-place read hands back and blanks the cell at the cursor, or gives the empty answer |
| HcsrDevice.Device.ClearRing | user-space device interface for HC-SR04/HCSR_Driver.c:795-806 | the clearing loop leaves the empty ring |
| HcsrDevice.Device.IrqHandler | user-space device interface for HC-SR04/HCSR_Driver.c:443-491 | the in-place handler equals the automaton's step |
| HcsrDevice.Device.SetParameters | user-space device interface for HC-SR04/HCSR_Driver.c:935-945 | rejects values below 1 and otherwise is the parameter step of the interleaved model |
| HcsrDevice.Device.Write | user-space device interface for HC-SR04/HCSR_Driver.c:783-823 | what a write leaves behind and answers: 0 only for a failed start, which keeps the lock; it waits when the lock is taken |
| HcsrDevice.WriteIsSteps | user-space device interface for HC-SR04/HCSR_Driver.c:783-823 | an undisturbed write is one or two steps of the interleaved model |
| HcsrDevice.Device.Read | user-space device interface for HC-SR04/HCSR_Driver.c:825-870 | an undisturbed read hands back the newest entry; when that looks empty it starts a measurement and reports EINVAL, with one under way it drops a second entry, and when no thread can be created it waits for ever for the lock that it took itself |
| HcsrDevice.Device.ThreadWrite | user-space device interface for HC-SR04/HCSR_Driver.c:694-735 | the thread alone pulses the trigger line once per wanted sample and publishes one reading, or dies with the lock in the division: on a zero count, or a sum of -2^31 over a count of -1 |
| HcsrDevice.Device.InitiateMeasurement | user-space device interface for HC-SR04/HCSR_Driver.c:738-753 | gives the lock back exactly when the thread could be created |
| HcsrDevice.Device.Reinitialize | user-space device interface for HC-SR04/HCSR_Driver.c:128-161 | leaves the device as new: ring empty, counters zero, lock free |
| HcsrDevice.EdgeIsStep | user-space device interface for HC-SR04/HCSR_Driver.c:443-491 | the handler on the device's fields is the edge step of the interleaved model |
| HcsrDevice.ThreadIsSteps | user-space device interface for HC-SR04/HCSR_Driver.c:694-735 | an undisturbed thread is the interleaved model's start, all its triggers, and its end |
| HcsrDevice.ReadIsSteps | user-space device interface for HC-SR04/HCSR_Driver.c:825-870 | an undisturbed read is one or two steps of the interleaved model |
| HcsrDevice.ReinitIsStep | user-space device interface for HC-SR04/HCSR_Driver.c:756-781 | an open, and a release that is let through, leave the same new device as the interleaved model, whatever is under way |
| HcsrDevice.OneRisePerTrigger | user-space device interface for HC-SR04/HCSR_Driver.c:714-722 | n triggers raise a line 0..63 exactly n times and leave it low; without a line, or from 64 on, nothing rises |
| HcsrMeasure.EveryMeasurement | user-space device interface for HC-SR04/HCSR_Driver.c:694-753 | over every interleaving, opens and releases at any moment included, finished threads fired all wanted triggers and published once each |
| HcsrMeasure.StepExclusiveIff | user-space device interface for HC-SR04/HCSR_Driver.c:128-161 | a step keeps the lock exclusive exactly when it is no open or release under a sampling thread |
| HcsrMeasure.OneInsideTheLock | user-space device interface for HC-SR04/HCSR_Driver.c:703-733 | in every run that spares the lock in this sense at most one thread is inside it |
| HcsrMeasure.OpenLetsTwoInside | user-space device interface for HC-SR04/HCSR_Driver.c:756-781 | a run in which a second open lets two threads inside the lock |
| HcsrMeasure.CapturedAtStart | user-space device interface for HC-SR04/HCSR_Driver.c:703-709 | the m of a measurement is the one in force when its thread took the lock, whatever SET_PARAMETERS did since |
| HcsrMeasure.FiresTwoMoreIff | user-space device interface for HC-SR04/HCSR_Driver.c:707-709 | exactly m + 2 triggers are fired if and only if m + 2 does not overflow an int |
| HcsrMeasure.FaultsIff | user-space device interface for HC-SR04/HCSR_Driver.c:726-731 | a measurement dies in the division exactly when the echoes accepted since open number 0 modulo 2^32, or -1 with a sum of 2^31 modulo 2^32; otherwise it publishes an int |
| HcsrMeasure.FaultReached | user-space device interface for HC-SR04/HCSR_Driver.c:729-729 | a run that ends in the division by zero with the lock held |
| HcsrMeasure.OverflowFaultReached | user-space device interface for HC-SR04/HCSR_Driver.c:729-729 | a run of plausible echoes that ends in the overflow of the division with the lock held |
| HcsrMeasure.DeadWorkerStopsDevice | user-space device interface for HC-SR04/HCSR_Driver.c:729-748 | after a thread died with the lock, or could not be created, nothing is published and the lock stays taken until an open or release takes effect |
| HcsrMeasure.ReopenRecovers | user-space device interface for HC-SR04/HCSR_Driver.c:756-781 | from any state, an open and one ordinary measurement publish again |
| HcsrMeasure.WritesMeasureOneAtATime | user-space device interface for HC-SR04/HCSR_Driver.c:807-821 | if only writes start measurements and no open or release comes under one, at most one is under way and the flag tells |
| HcsrMeasure.ReadThenWriteStartsTwo | user-space device interface for HC-SR04/HCSR_Driver.c:847-857 | a run in which a read and a write leave two measurements under way |
| HcsrMeasure.StepOneAtATimeIff | user-space device interface for HC-SR04/HCSR_Driver.c:839-858 | a step keeps measurements one at a time exactly when it is neither a read that starts one nor an open or release under one |
| HcsrMeasure.EveryReadingIsAMean | user-space device interface for HC-SR04/HCSR_Driver.c:726-731 | in every run, however the clock wraps, each valid cell of the ring is the mean of the echoes between open and its publication |
| HcsrMeasure.StepStackedIff | user-space device interface for HC-SR04/HCSR_Driver.c:307-315 | a step keeps the ring a stack exactly when it does not stamp a reading with 2^64-1 |
| HcsrMeasure.RingIsAStack | user-space device interface for HC-SR04/HCSR_Driver.c:280-315 | in every run without such a stamp the ring stands for the bounded stack of the readings and a read hands back its top |
| HcsrMeasure.ReadingsAscend | user-space device interface for HC-SR04/HCSR_Driver.c:727-730 | until the 64-bit clock wraps, timestamps ascend from the oldest reading to the newest |
| HcsrMeasure.ReadAnswersEmptyIff | user-space device interface for HC-SR04/HCSR_Driver.c:835-839 | in every run a read answers -1 exactly when the cell at the cursor is marked empty or its recorded sum and count gave -1 |
| HcsrMeasure.PlausibleReadings | user-space device interface for HC-SR04/HCSR_Driver.c:726-731 | in every run with plausible echoes, a reading before which at most 5368709 were accepted is the floor of their mean, lies between them and in 0..400 |
| HcsrMeasure.ReadingTakenForEmpty | user-space device interface for HC-SR04/HCSR_Driver.c:839-839 | a run that leaves a reading of -1 in the ring, which a read drops |
| HashChains.DeleteWalkCompleteIff | Hash Table Driver/Hash_Driver.c:139-145 | the delete walk, cut short by hash_del, removes the key completely exactly when the chain holds it at most once |
| HashChains.WriteThenRead | Hash Table Driver/Hash_Driver.c:100-313 | a write keeps the table well formed, a read of its key returns the data or not found, other keys read as before |
| HashChains.TableRefinesMap | Hash Table Driver/Hash_Driver.c:100-313 | over every run of writes chains have unique keys in the right buckets with no data 0, and every lookup agrees with a plain map |
| HashChains.MinusOneReadsAsNotFound | Hash Table Driver/Hash_Driver.c:215-313 | after any writes a read gives -1 exactly for an unbound key or one bound to -1, and the latter happens |
| HashChains.DumpLists | Hash Table Driver/Hash_Driver.c:376-419 | a full dump lists a binding once if a key 0..128 reaches its bucket and it is among the eight newest there, else not at all, and lists nothing else |
| HashChains.DumpListsTheMapIff | Hash Table Driver/Hash_Driver.c:376-419 | a full dump lists exactly the map if and only if every bound key's bucket is reached by a key 0..128 and no chain exceeds eight |
| HashChains.DumpMissesUnreached | Hash Table Driver/Hash_Driver.c:376-390 | a hash and a single write whose binding the dump never lists |
| HashTable.Table.HashAdd | Hash Table Driver/Hash_Driver.c:162-165 | linking at the head keeps all chains acyclic, disjoint and linked both ways |
| HashTable.Table.HashDel | Hash Table Driver/Hash_Driver.c:139-145 | unlinking through pprev cuts out one node, clears its links and keeps all chains |
| HashTable.Table.DeleteWalk | Hash Table Driver/Hash_Driver.c:133-146 | the pointer walk removes the first match and nothing else |
| HashTable.Table.UpdateWalk | Hash Table Driver/Hash_Driver.c:151-161 | the pointer walk updates every match and reports whether there was one |
| HashTable.Table.Write | Hash Table Driver/Hash_Driver.c:111-168 | the linked chains after a write are those of the specification |
| HashTable.Table.Read | Hash Table Driver/Hash_Driver.c:215-270 | returns the data of the last match and 1, or -1 and -EINVAL exactly when the key is absent |
| HashTable.Table.Dump | Hash Table Driver/Hash_Driver.c:370-421 | accepted exactly when some key 0..128 hashes to the bucket, in particular only for 0..127; copies its first eight nodes, newest first, and nothing on refusal |
| HashTable.Table.Release | Hash Table Driver/Hash_Driver.c:328-339 | every linked node is unlinked and freed exactly once, and the table is empty |
| HashDriver.Driver.Open | Hash Table Driver/Hash_Driver.c:76-93 | selects the opened device's table for all files and empties it |
| HashDriver.Driver.Write | Hash Table Driver/Hash_Driver.c:100-212 | writes the selected table and leaves the other alone |
| HashDriver.Driver.Read | Hash Table Driver/Hash_Driver.c:215-313 | answers from the selected table |
| HashDriver.Driver.Dump | Hash Table Driver/Hash_Driver.c:357-453 | dumps a bucket of the selected table, refusing every number outside 0..127 |
| HashDriver.Driver.Release | Hash Table Driver/Hash_Driver.c:316-355 | empties the selected table only |
| HashDriver.DumpAll | Hash Table Driver/Hash_Driver.c:357-453 | asking for all 128 buckets in turn collects the full dump of the selected table |
| HashDriver.EachTableIsItsWrites | Hash Table Driver/Hash_Driver.c:76-355 | over every run of opens, writes and releases each table is the outcome of the writes that went to it since it was last emptied |
| HashDriver.EveryReadIsRight | Hash Table Driver/Hash_Driver.c:215-313 | over every such run a read is answered from the map of those writes of the table opened last |
| HashClient.EveryReadBackIsRight | Hash Table Driver/Main.c:43-174 | for any interleaving of any threads each read-back returns what was just written or not found, every read the value at its place in the write order, and the table is the outcome of that order |
| HashClient.FinishedRunIsBounded | Hash Table Driver/Main.c:120-174 | every finished run ends with each counter between its limit and limit + threads - 1, and bounds the driver calls |
| HashClient.SomeThreadMoves | Hash Table Driver/Main.c:120-174 | in every reachable state that is not finished some thread can move |
| HashClient.EveryRunEnds | Hash Table Driver/Main.c:120-174 | however it interleaves, a run changes the state only a bounded number of times |
| LedFrame.ColourRoundTrip | Bit Banging Approach to drive WS2812 based LED Strip/ws2812.c:215-251 | the 24 bits of a colour decode to its intensities mod 256, for every int |
| LedFrame.RowsShowPicture | Bit Banging Approach to drive WS2812 based LED Strip/ws2812.c:253-273 | in either code an LED shows its latest write or reset, other LEDs are untouched, and one never touched has cells 0 |
| LedFrame.BitBangAlwaysShows | Bit Banging Approach to drive WS2812 based LED Strip/ws2812.c:45-46 | the bit-bang frame is a valid picture from power-up on |
| LedFrame.FramesAgreeIff | SPI based driver for WS2812 LED Strip/spi_driver.c:161-229 | the SPI and bit-bang rows of an LED agree under 0xF0 for 1 and 0xC0 for 0 exactly when it was written or reset |
| LedFrame.FramesAgreeAfterReset | SPI based driver for WS2812 LED Strip/spi_driver.c:219-229 | after a RESET both frames represent the same 16 colours for good |
| LedFrame.Strip.SetColor | Bit Banging Approach to drive WS2812 based LED Strip/ws2812.c:215-251 | the three loops fill the 24 cells green, red, blue, least significant bit first |
| LedFrame.Strip.SetLedRgb | Bit Banging Approach to drive WS2812 based LED Strip/ws2812.c:253-259 | changes exactly the row of its LED |
| LedFrame.Strip.ResetFrame | Bit Banging Approach to drive WS2812 based LED Strip/ws2812.c:262-270 | sets every row to black |
| LedBitBang.TraceRoundTrip | Bit Banging Approach to drive WS2812 based LED Strip/ws2812.c:155-182 | the register writes and delays decode back to the bits from the pin's level and the delays alone |
| LedBitBang.OnlyEncodedTracesDecode | Bit Banging Approach to drive WS2812 based LED Strip/ws2812.c:167-182 | nothing but the encoder's own trace decodes |
| LedBitBang.OnlyThePinMoves | Bit Banging Approach to drive WS2812 based LED Strip/ws2812.c:155-164 | every register write differs from val_data only at the pin, and the line ends low |
| LedBitBang.LineShowsThePicture | Bit Banging Approach to drive WS2812 based LED Strip/ws2812.c:185-203 | the trace of a transfer decodes to all 16 colours mod 256 |
| LedBitBang.EveryFrameShows | Bit Banging Approach to drive WS2812 based LED Strip/ws2812.c:185-203 | after each of any number of transfers the last frame on the line decodes to the picture then meant |
| LedBitBang.Driver.WriteToRegisters | Bit Banging Approach to drive WS2812 based LED Strip/ws2812.c:185-203 | the nested loops emit the frame's trace, cell by cell |
| LedBitBang.Driver.Write | Bit Banging Approach to drive WS2812 based LED Strip/ws2812.c:283-292 | repaints one LED and transmits the whole new picture as one more frame |
| LedBitBang.Driver.ResetLeds | Bit Banging Approach to drive WS2812 based LED Strip/ws2812.c:262-273 | darkens and transmits the picture |
| LedSpi.TransferShowsThePicture | SPI based driver for WS2812 LED Strip/spi_driver.c:285-297 | once reset, the bytes of a transfer decode to the 16 colours mod 256 |
| LedSpi.Driver.Write | SPI based driver for WS2812 LED Strip/spi_driver.c:285-297 | sends the frame after one more colour write |
| LedDisplay.RotatedShows | Bit Banging Approach to drive WS2812 based LED Strip/main.c:124-131 | at step i LED (i + k) % 16 shows colour k |
| LedDisplay.Display | Bit Banging Approach to drive WS2812 based LED Strip/main.c:113-144 | for any repeat count, the endless one included, what came down the line shows on the strip as the rotated colours at every pause, all other LEDs off, and as dark after every step and at the end |
| LedDisplay.StepsAre | Bit Banging Approach to drive WS2812 based LED Strip/main.c:122-122 | how many steps any repeat count gives, the multiplication wrapping as a C int |
| LedDisplay.StepsInFullIff | Bit Banging Approach to drive WS2812 based LED Strip/main.c:122-122 | a positive repeat count gives all its 16 steps per repeat exactly below 2^27, and 2^27 gives none |
| LedDisplay.RotationPeriod | Bit Banging Approach to drive WS2812 based LED Strip/main.c:119-142 | the same picture comes round every 16 steps, so the endless passes continue one rotation |
| HrTimer.CallbacksFollowLoops | Bit Banging Approach to drive WS2812 based LED Strip/timer_delay_test.c:392-440 | after any number of callbacks the trace is that prefix of the nested loops' trace, and exactly 4n callbacks ask for a restart |
| HrTimer.RestartMeansProgress | Bit Banging Approach to drive WS2812 based LED Strip/timer_delay_test.c:395-412 | every restart makes the remaining work strictly smaller |
| HrTimer.HrTimer.Expired | Bit Banging Approach to drive WS2812 based LED Strip/timer_delay_test.c:392-440 | the in-place callback equals the machine's step |
| HrTimer.HrTimer.RunOut | Bit Banging Approach to drive WS2812 based LED Strip/timer_delay_test.c:443-454 | the armed timer stops after exactly four restarts per bit with the loops' trace, or, cancelled earlier, leaves that much of it |
| HrTimer.Pin.BitBangLoops | Bit Banging Approach to drive WS2812 based LED Strip/timer_delay_test.c:368-389 | the nested loops emit n one-bits, sleep once, and emit n zero-bits |

## Left out

- HcsrPins.PinDriver.PinConfig: only who holds a line is modelled; directions, and the low value written to every configured line, are not, except on the trigger line (`HcsrDevice.Device.DriveOutput`).
- HcsrMeasure.Step: testing and setting the in-progress flag is one step; `kthread_stop` waits for the thread last started, but does not cancel one that has not begun, and a release with the flag set and no thread ever started does nothing; interrupt masking by the lock is not modelled.
- The device list, the module exit path (which frees list nodes while walking them) and memory allocation failure.
- HashDriver.Driver.Open: nodes still linked when a table is opened are forgotten, as in the code; their memory is not tracked.
- HashClient.Step: a guard read, a lock, a driver call and a counter update are each one atomic step; the file descriptor is not represented because the driver ignores it.
- HashDriver.DumpAll: stands for a client that asks for every bucket; the repository's own dump loop always asks for bucket 8.
- HashTable.Table.Dump: the number of copied objects is not written back by the code, so the caller's array keeps older entries behind them.
- LedFrame.Strip.SetLedRgb: an LED number outside 0..15 writes outside the array in the code and is not modelled.
- LedBitBang.Driver.Write: takes an LED number in 0..15, for the same reason.
- LedSpi.Driver.Write: takes an LED number in 0..15, for the same reason.
- LedDisplay.Display: a product that does not fit a C int is taken to wrap, as the machine's multiplication does; the colours are a sequence of 1 to 16, as the prompts ask for; the program's own array holds 12.
- HrTimer.HrTimer.RunOut: the cancel after three seconds is a bound on the number of expirations, not a clock.
- The GPIO set-up of the LED drivers, SPI message completion, prompts, overhead measurements and real time beyond the recorded delays.
- The platform-driver variant of the sensor driver, the kprobe programs and the stack-dumping system calls.
