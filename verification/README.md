# Operating-systems exercises, verified

Models in Dafny 4.11 of the protocols and text routines of an operating-systems course, with proofs of what each of them promises.
Concurrent programs are state machines in which every process is a program counter (named after the source line it stands on) with its local variables, every step is one semaphore operation, one call or one access to shared memory, and any process may take the next step.
Beside each state machine stands the program itself, as classes whose fields and arrays are changed in place and whose methods are proved to take exactly the steps of the machine.
`dafny verify dfyconfig.toml` checks everything.

| part | files | source |
|---|---|---|
| Pizzeria: cooks, suppliers, two ring buffers, five semaphores | `RingBuffer`, `Pizzeria`, `Kitchen` | cw07/zad1; cw07/zad2 has the same steps with POSIX semaphores |
| Santa Claus, reindeers and elves | `Santa`, `SantaFacts`, `Endings`, `Deliveries`, `Helping`, `Eventually`, `ElvesQueue`, `Schedules`, `LostCalls`, `Workshop` | cw09/zad1 |
| Acknowledged signals | `Signals`, `Handshake` | cw04/zad3b |
| Tic-tac-toe: two clients, the server's table | `Board`, `Game`, `Player`, `Table`, `Server` | cw10/zad1 |
| Threaded negative, plain PGM | `Negative`, `Threads`, `Decimal`, `Pgm`, `PictureFile` | cw08/zad1 |
| Directory walk in one path buffer | `Tree`, `CString`, `Walker` | cw02/zad3 |
| Message codec | `Codec`, `Chat` | cw06/zad2/shared.h |
| Blank-line filter | `BlankLines`, `LineCopier` | cw02/zad1 |

`Counting` holds the facts about counts, sums and bags over processes that the others use.

## What is proved

**Pizzeria.** For every number of cooks and suppliers, every capacity and every schedule: both rings are first-in first-out queues at every point of every put and take, no put overwrites a pizza and no take reads an empty slot, each semaphore is what the holders of its units have left, every pizza is in exactly one place, and there is no deadlock.
From every reachable state the shop can close: once no new pizza is started every schedule ends within a bound, and at the end everything has been delivered.
It can also go on: every cook can still prepare every pizza, and every supplier deliver it (`EveryPairDelivers`).

**Santa Claus.** For any number of reindeers and elves and every schedule: mutexes are locked in one order, so that there is no circular wait; a reindeer counts once between resets; every delivery is made with all reindeers back and there are at most three; `waiting_elves` stays between 0 and 3 and `elves_queue` is written within its bounds, by each elf at its own place.
After the third delivery no reindeer is counted again, and all reindeer threads can end, so that `main` can join them, if and only if none of them missed the end of that delivery (`ReindeersEndIff`).
The documentation (cw09/readme.md:46-49) asks for more: Santa must not sleep while nine reindeers or three elves wait for him, and no more than three elves may wait.
Calls for him are lost when he does not listen, and reindeers miss the end of a delivery when they are not yet asleep, so the first of these does not hold; how far it does is settled for every reachable state:

- A further delivery is possible if and only if there is hope (`DeliveryComesIff`): fewer than three have been made, no reindeer is left out, and, once all are counted, Santa is on his way or somebody will call him in time. While he ends a delivery, at line 122, this means that no reindeer still waits for him to sleep, at lines 163 to 165.
- Hope is lost in three kinds of step and no other (`HopeLostIff`), and never by a wait that returns without a signal (`SpuriousHope`): Santa sets out on his last delivery, or on one that some reindeer cannot wait for asleep; he ends one while some reindeer is not asleep; the last reindeer calls him while he neither listens nor is on his way. The last two are reached by concrete runs (`LeftBehind`, `CalledTooEarly`).
- If Santa's own wait may return without a signal as well, all that matters is that no reindeer is left out (`DeliveryComesFreelyIff`).
- When three elves are counted, he can come to help them before the next delivery if and only if he is about to, or a reindeer is missing that is not just about to be counted and he has been woken or somebody will call in time (`HelpComesIff`). He can come at all, after however many deliveries, if and only if he can before the next one or a second caller will be left after it (`HelpComesAtLastIff`). An elf's call wakes him if and only if he has come from line 110 to line 111 (`ElfCallCountsIff`); a run in which it does not is `ElvesNeglected`.
- An elf that waits at line 190 for three others to return, which the documentation lets go on when they do (cw09/readme.md:19-22), goes on if and only if its wait returns without a signal (`ElfReturnsIff`).
- No more than three elves ever wait, as long as Santa's own wait does not return without a signal (`AtMostThreeWait`). If it may, the elves that wait are never more than the counter says if and only if none is between lines 201 and 210 whenever Santa resets it (`QueueCountedIff`), and more than three can wait if and only if there are more than three elves (`CrowdIff`).

**Signals.** Although standard signals merge while pending (`SignalsMerge`) and handlers interrupt anywhere (`SignalsInterrupt`, `PendingInterrupts`), no signal is ever merged, both counts are right when the sender reports, and a run has at most 12n + 10 steps, whatever the modes of the two programs.
All runs end well if and only if the modes fit (`RunsEndWellIff`): both programs know theirs, and both use standard signals or both real-time ones.

**Tic-tac-toe.** The listening thread of a client writes `state` and `arg` while the game thread may be in the middle of a turn, between sending its move and setting `WAITING_FOR_MOVE`.
So a turn is two steps here. In runs in which a move is received outside such a turn the boards stay in step, turns alternate, at most one symbol has a line, and the game ends within 36 steps, the player with a line having been told that it has won (`RunsEndFairly`); every game that the rules allow can be played so (`EveryGameIsPlayed`).
In any run the boards follow the moves throughout if and only if no move is received in the middle of a turn (`InStepIffTimely`).
A received move reaches the board if and only if it was received outside a turn (`ReceiptCountsIffTimely`); otherwise both clients wait for ever if and only if that move did not end the game (`UntimelyReceiptStallsIff`), which can happen in the first turn (`FirstTurnCanStall`).
The server's table stays paired through every sequence of commands and rounds of ping, and a client leaves it exactly when it or its opponent quits or fails to answer between two rounds (`LeavesIff`).

**Negative.** For every number of threads, either method and every interleaving each pixel is written once and the result is the negative.
The documentation (cw08/readme.md:12-13) divides with `ceil`; the code divides integers first, and the last thread takes what remains.
So the threads have the documented shares if and only if their number divides the width (`DocumentedIff`), and equally many values (cw08/readme.md:8-10) if and only if it divides 256 (`EqualValuesIff`).
Loading a saved picture gives it back, and two runs of the program on any sound picture are the identity.

**Directory walk.** Of every finite tree the walk reports exactly the nodes there are, each once, with a path that leads to it and its kind, a directory before its contents; the seven counters are the numbers of nodes of each kind; and the path buffer is as it was before.

**Codec.** What a message arrives as is told exactly, unless there is a dash in its text (`ArrivesAs`). It is the one that was sent if and only if its text is not empty and has no dash, its numbers survive the loss of the sign and the conversion to `int`, and, if the receiver's `errno` is set, none of them is zero.
The smallest `int` survives: its sign is lost and the conversion brings it back.
The server receives into a buffer that it uses again, and messages travel without their end: a message that a longer one preceded is read back if and only if what is left behind it does not begin with a digit, or the time is one that those digits cannot change.

**Blank lines.** Both variants write exactly the lines that are not blank, in order and unchanged.
The second one does not empty its output file; its result is right if and only if the file was no longer than the result before.

## Model

| member | source | states |
|---|---|---|
| `RingBuffer.ApplyRefines` | cw07/zad1/cook.c:61-80 | each single access of a put or a take leads a ring that is a queue as far as one stage to the next stage; a write needs room, a fetch a pizza |
| `RingBuffer.WriteRefines` | cw07/zad1/cook.c:62 | the slot written was empty, and the queue has the new value at its end |
| `RingBuffer.FetchRefines` | cw07/zad1/cook.c:75 | the value read is the oldest of the queue, not the mark of an empty slot |
| `RingBuffer.PlaceFollowsTake` | cw07/zad1/cook.c:61-80 | with no operation under way, place index = (take index + count) mod k |
| `Pizzeria.TextFollowsStages` | cw07/zad1/cook.c:23-58 | a ring is touched between lock and unlock only, in the order of one put or one take |
| `Pizzeria.FetchesOldest` | cw07/zad1/supplier.c:34-41 | whoever fetches gets the oldest pizza of the ring |
| `Pizzeria.WritesEmptySlot` | cw07/zad1/cook.c:67-71 | whoever writes finds an empty slot and room in the ring |
| `Pizzeria.StepInv` | cw07/zad1/cook.c:23-58 | every step of every process keeps queues, token counts, lengths and the ledger of pizzas |
| `Pizzeria.RunInv` | cw07/zad1/main.c:80-151 | every state of every run from the initial values of rings and semaphores satisfies the invariant |
| `Pizzeria.RingsStayQueues` | cw07/zad1/cook.c:61-80 | in every run the pizzas taken are a prefix of those put, a ring never holds or counts more than k, and with the mutex free the place index follows from the other fields |
| `Pizzeria.PutsAndTakesAreSafe` | cw07/zad1/cook.c:61-80 | in every run no put overwrites a pizza and no take reads -1 |
| `Pizzeria.SemaphoresCount` | cw07/zad1/main.c:120-151 | in every run a section has at most one process in it, and each semaphore plus the holders of its units is constant: 1, 1, k, and k for the two of the table together |
| `Pizzeria.PizzasAreConserved` | cw07/zad1/cook.c:23-58 | every pizza prepared is in exactly one of: a cook's hands before or after baking, oven, table, a supplier's hands, delivered |
| `Pizzeria.WaitsHoldLittle` | cw07/zad1/cook.c:28-50 | nobody waits for a semaphore inside a section, and nobody waits for a counting semaphore while holding a unit of another one |
| `Pizzeria.NoDeadlock` | cw07/zad1/supplier.c:15-31 | with at least one cook and one supplier every reachable state has a process that can take a step |
| `Pizzeria.ClosingProgress` | cw07/zad1/cook.c:23-58 | if no new pizza is started, every step of whatever process lowers the work that is left |
| `Pizzeria.ClosingPossible` | cw07/zad1/cook.c:23-58 | unless everything is at rest, some process can go on without a new pizza |
| `Pizzeria.ClosingEnds` | cw07/zad1/cook.c:23-58 | a schedule without new pizzas has no more steps than there is work |
| `Pizzeria.RestHasDelivered` | cw07/zad1/supplier.c:28-30 | at rest the pizzas delivered are those prepared |
| `Pizzeria.CanClose` | cw07/zad1/cook.c:23-58 | from every state that satisfies the invariant some schedule leads to rest with everything delivered |
| `Pizzeria.EveryRunCloses` | cw07/zad1/supplier.c:15-31 | from every state of every run, every schedule without new pizzas ends within a bound and cannot end before everything prepared is delivered |
| `Pizzeria.GoesOnUnlessLocked` | cw07/zad1/cook.c:23-58 | a process goes on at every line except one at which a semaphore without a unit is to be locked |
| `Pizzeria.EveryPairDelivers` | cw07/zad1/supplier.c:15-31 | from every state of every run, for every cook, supplier and pizza, some continuation lets this cook prepare this pizza and this supplier deliver it, with everything prepared before delivered |
| `Pizzeria.SchedulesReach` | cw07/zad1/cook.c:23-58 | any sequence of steps is that of some schedule with as many turns, so that the program under schedules reaches whatever the state machine does |
| `Kitchen.SharedRing.constructor` | cw07/zad1/main.c:80-98 | all slots are marked empty, count and indices are zero |
| `Kitchen.SharedRing.Perform` | cw07/zad1/cook.c:61-80 | one statement on the shared arrays and fields does what the ring of the state machine does |
| `Kitchen.SharedRing.Put` | cw07/zad1/cook.c:61-71 | uninterrupted, the queue has the new pizza at its end and nothing is taken |
| `Kitchen.SharedRing.Take` | cw07/zad1/cook.c:73-80 | uninterrupted, it returns the head of the queue and leaves its tail |
| `Kitchen.Shop.constructor` | cw07/zad1/main.c:120-151 | rings and semaphores are those of the initial state, the cooks at their first line and the suppliers at theirs |
| `Kitchen.Shop.Lock` | cw07/zad1/shared.h:104-112 | a unit is taken if there is one; otherwise the process does not get on |
| `Kitchen.Shop.Step` | cw07/zad1/cook.c:23-58 | a process moves unless it has to lock a semaphore without a unit: a cook at line 24 prepares the pizza given and then holds it, a supplier at line 29 delivers the one it holds, and every step changes the shared memory as the state machine says |
| `Kitchen.Shop.Run` | cw07/zad1/cook.c:23-58 | under any schedule every turn of a process that can go on is taken, in order, and the states passed through are a run of the state machine |
| `Santa.TextOwns` | cw09/zad1/main.c:107-220 | locks, unlocks and waits of all three thread functions agree, line by line, with one table of mutexes held |
| `Santa.LockOrder` | cw09/zad1/main.c:184-215 | a mutex is locked, also at the end of a wait, only after mutexes that come before it in one order |
| `Santa.NoCircularWait` | cw09/zad1/main.c:107-220 | no threads wait for mutexes in a circle |
| `Santa.MutexWaitsEnd` | cw09/zad1/main.c:107-220 | behind every thread that waits for a mutex there is one that can take a step |
| `Santa.StepOwned` | cw09/zad1/main.c:107-220 | every step keeps each mutex with the one thread whose place in the program holds it |
| `Santa.StepElves` | cw09/zad1/main.c:184-199 | every step keeps waiting_elves within 0 to 3, below 3 between the check and the increment, and above 0 up to the use |
| `Santa.NotCountedYet` | cw09/zad1/main.c:157-158 | a reindeer about to count itself has not been counted since the last reset |
| `Santa.StepReindeers` | cw09/zad1/main.c:155-174 | every step keeps waiting_reindeers equal to the number of distinct reindeers counted, all of which are still there until the reset |
| `Santa.StepDeliveries` | cw09/zad1/main.c:117-127 | every delivery finds all reindeers counted, and Santa ends only after three |
| `Santa.RunInv` | cw09/zad1/main.c:107-220 | every state of every run satisfies the invariant |
| `Santa.DeliveriesAreComplete` | cw09/zad1/main.c:117-127 | in every run the count stays within 0 to r, each delivery has all r distinct reindeers back, and Santa's thread ends after exactly three |
| `Santa.ReindeersCountOnce` | cw09/zad1/main.c:155-174 | in every run no reindeer is counted twice between resets |
| `Santa.EnlistInBounds` | cw09/zad1/main.c:184-199 | in every run waiting_elves is within 0 to 3 and the write to elves_queue in bounds |
| `Santa.MutexesNeverDeadlock` | cw09/zad1/main.c:107-220 | in every run there is no circular wait, and if somebody waits for a mutex then somebody can step |
| `Santa.RunnersGoOn` | cw09/zad1/main.c:107-220 | a running thread goes on at every line, except at the lock of a mutex that somebody has and at its end |
| `Santa.SleepersGoOn` | cw09/zad1/main.c:107-220 | a thread woken in a wait goes on as soon as the mutex is free, and every wait but that of line 172 may be woken by nobody |
| `Santa.TestsDecide` | cw09/zad1/main.c:107-220 | where each of the eight tests leads, in terms of the variables |
| `Santa.SchedulesReach` | cw09/zad1/main.c:107-220 | any sequence of the threads' steps is that of some schedule with as many turns |
| `Santa.OwnNumberEntered` | cw09/zad1/main.c:194-199 | in every run an elf at line 199 has its own number in elves_queue, at the place of the counter |
| `Endings.ReindeerLeaves` | cw09/zad1/main.c:155 | a reindeer back from a delivery leaves the loop if three have been made, and goes on holiday again if fewer |
| `Endings.NobodyCountsAfterThree` | cw09/zad1/main.c:155-158 | once three deliveries have been made in a run, no step counts a reindeer or makes another delivery |
| `Endings.AllCanEnd` | cw09/zad1/main.c:172-175 | after the last delivery, if nobody missed its end, a schedule ends all reindeer threads |
| `Endings.MissedStays` | cw09/zad1/main.c:161-172 | a reindeer that missed it waits in every later state, whoever steps or wakes by himself |
| `Endings.ReindeersEndIff` | cw09/zad1/main.c:69-77 | whenever in a run Santa has ended, all reindeer threads can end, as their joins wait for, if and only if none of them missed the end of the last delivery |
| `SantaFacts.StepKnown` | cw09/zad1/main.c:107-220 | every step keeps what the variables say of places: `santa_sleeping` of Santa's, who waits at 165 or 205 that he does not sleep or all are counted, a reindeer counted at 162 to 168 that all are, and that it is the only one |
| `SantaFacts.RunKnown` | cw09/zad1/main.c:107-220 | these facts hold in every state of every run |
| `Deliveries.HopeLostIff` | cw09/zad1/main.c:117-168 | from a state with hope a step leads to one without if and only if Santa sets out on his last delivery or on one that a reindeer at 163 to 165 misses, or ends one while a reindeer is not asleep at 172, or the last reindeer calls while Santa is neither asleep at 111 nor on his way |
| `Deliveries.SpuriousHope` | cw09/zad1/main.c:107-220 | a return without a signal of any wait but Santa's own and that at 172 neither brings hope nor loses it |
| `Deliveries.HopelessStays` | cw09/zad1/main.c:107-220 | without hope no step of any thread brings it back or makes a delivery |
| `Deliveries.LeftOutForEver` | cw09/zad1/main.c:170-173 | a reindeer that waits uncounted stays so under every step and every return without a signal, Santa's included, and no delivery is made any more |
| `Deliveries.NextStep` | cw09/zad1/main.c:107-220 | with hope some thread has a step that keeps it and brings a delivery nearer |
| `Deliveries.DeliveryPossible` | cw09/zad1/main.c:107-220 | with hope a schedule of steps alone leads to a delivery |
| `Deliveries.DeliveryComesIff` | cw09/zad1/main.c:107-176 | in every state of every run, some continuation makes a further delivery if and only if there is hope |
| `Deliveries.DeliveryComesFreelyIff` | cw09/zad1/main.c:107-176 | in every state of every run, some continuation in which Santa may also wake up by himself makes a further delivery if and only if fewer than three have been made and no reindeer is left out, or, at line 122, none is still at 163 to 165 |
| `Helping.HelpPossible` | cw09/zad1/main.c:129-143 | from every state that Helpful names a schedule leads Santa to the reset of `waiting_elves` without a delivery before |
| `Helping.NoHelpStays` | cw09/zad1/main.c:184-215 | from every other state in which three elves are counted, every step and every return without a signal but Santa's leads to such a one again or makes a delivery |
| `Helping.HelpComesIff` | cw09/zad1/main.c:129-143 | in every reachable state in which three elves are counted, Santa can help them before the next delivery if and only if he is at 130 to 142; or a reindeer is missing that is not at 158 as the last, and he has been woken, or an elf at 195 to 211 or a reindeer at 162 to 168 will call, an elf with sleep_mutex not counting while he is at 110; or he is ending a delivery, not his last, and somebody will call |
| `Eventually.LaterPossible` | cw09/zad1/main.c:107-220 | if all reindeers are counted and besides the call that brings Santa another one is left, or an elf that keeps him out at 110 can still be told to wait until all reindeers come, a schedule leads through a delivery to the reset |
| `Eventually.NeverStep` | cw09/zad1/main.c:107-220 | if he can help neither before the next delivery nor later, no step of any thread changes that, deliveries included |
| `Eventually.HelpComesAtLastIff` | cw09/zad1/main.c:107-220 | in every reachable state in which three elves are counted, Santa can come to reset their count, after however many deliveries, if and only if one of the two holds |
| `Helping.ElfCallCountsIff` | cw09/zad1/main.c:201-212 | an elf's call finds Santa at 110 or 111, and wakes him if and only if he is at 111 |
| `ElvesQueue.RunTold` | cw09/zad1/main.c:140-143 | in every state of every run in which Santa is about to reset the counter no elf sleeps at 214 |
| `ElvesQueue.EmptyIffNobodyLate` | cw09/zad1/main.c:140-143 | in a state in which he is about to and none sleeps, no elf waits at all exactly if none is between 201 and 210 |
| `ElvesQueue.QueueCountedIff` | cw09/zad1/main.c:140-215 | in every run the elves that wait are never more than `waiting_elves` if and only if no elf is between 201 and 210 at any reset |
| `ElvesQueue.OrderlyStays` | cw09/zad1/main.c:107-220 | every step keeps: one third elf at a time, and none on its way while Santa is up for elves or a reindeer will call him after a delivery without it |
| `ElvesQueue.AtMostThreeWait` | cw09/zad1/main.c:184-215 | in every run in which Santa wakes up only when called, at most three elves wait, and the counter covers them |
| `LostCalls.AllWaitIff` | cw09/zad1/main.c:110-172 | whenever in a run Santa sleeps although all reindeers sleep at 172, a delivery can come if and only if all are counted and an elf is about to call |
| `LostCalls.CalledTooEarly` | cw09/zad1/main.c:157-172 | for any numbers of reindeers and elves a concrete run leads there without hope, no delivery made |
| `LostCalls.LeftBehind` | cw09/zad1/main.c:121-123 | another leads to one delivery and a reindeer left out of it |
| `LostCalls.CountedTwice` | cw09/zad1/main.c:170-174 | after a return without a signal at 172 a reindeer counts again: the count is two and one reindeer is back |
| `LostCalls.ElvesNeglected` | cw09/zad1/main.c:199-214 | a concrete run leads to three counted elves and Santa asleep, with no way to help before a delivery |
| `LostCalls.ElfReturnsIff` | cw09/zad1/main.c:185-191 | an elf asleep at 190 is changed by a step exactly if that is a return of its own wait without a signal, which is always possible |
| `LostCalls.FourSleep` | cw09/zad1/main.c:199-214 | with four elves a concrete run ends with all four asleep at 214 |
| `LostCalls.CrowdIff` | cw09/zad1/main.c:184-215 | more than three elves can wait if and only if there are more than three |
| `Workshop.Program.Step` | cw09/zad1/main.c:107-220 | a step on the global variables is the step of the state machine, whose tests and moves TestsDecide, RunnersGoOn and ReindeerLeaves describe |
| `Workshop.Program.Run` | cw09/zad1/main.c:107-220 | under any schedule every turn of a thread that can go on is taken, in order; the states follow from each other by steps and satisfy the invariant |
| `Signals.StepInv` | cw04/zad3b/sender.c:73-101 | every statement, interruption and handler keeps one signal under way, in exactly one place |
| `Signals.AnyStepInv` | cw04/zad3b/sender.c:73-101 | every move keeps that invariant, or, with modes that do not fit, that at most one signal is ever sent and none is answered |
| `Signals.NoSignalIsLost` | cw04/zad3b/catcher.c:10-28 | in every run, whatever the modes, no signal is sent to a process that has the same one pending, the counts differ by at most one, and when the sender reports both are n |
| `Signals.SignalsInterrupt` | cw04/zad3b/sender.c:13-26 | a pending signal interrupts its process at any statement, also inside the handler of the other signal; its own handler is then on top |
| `Signals.OwnSignalWaits` | cw04/zad3b/sender.c:46-56 | while a handler runs its own signal is not delivered, also when the other handler has interrupted it |
| `Signals.ProcessesGoOn` | cw04/zad3b/sender.c:73-101 | handlers always go on, and so does the main of the sender, except in its two loops while it waits and after the last signal |
| `Signals.SchedulesReach` | cw04/zad3b/sender.c:73-101 | any sequence of steps and interruptions is that of some schedule with as many moves |
| `Signals.SignalsMerge` | cw04/zad3b/sender.c:76-84 | of two signals sent in a row one is lost if they are standard ones, and none if they are real-time ones |
| `Signals.AnswersMerge` | cw04/zad3b/catcher.c:16-27 | the same for what the catcher sends |
| `Signals.SignalsUnhandled` | cw04/zad3b/catcher.c:74-83 | a standard signal ends a process that does not handle it; a real-time one is blocked by the catcher and ends the sender |
| `Signals.PendingInterrupts` | cw04/zad3b/sender.c:13-26 | in every run between fitting programs a pending acknowledgement or closing signal interrupts the sender wherever it is, and signals interrupt the catcher, the closing one also at the end of its first handler |
| `Signals.InterruptsTheTest` | cw04/zad3b/sender.c:73-86 | for every n from 1 and fitting modes a concrete run has handler1 interrupt at line 73, before the loop is tested again |
| `Signals.StepWorks` | cw04/zad3b/sender.c:73-101 | every step of whatever process lowers the bound on what is left |
| `Signals.NotFinalMoves` | cw04/zad3b/sender.c:73-101 | unless both processes have ended one of them can take a step |
| `Signals.RunsAreShort` | cw04/zad3b/sender.c:73-101 | whatever the modes, a run has at most 12n + 10 steps |
| `Signals.RunsEndWell` | cw04/zad3b/sender.c:22-26 | a run that cannot be continued has ended both processes with n signals counted by both |
| `Signals.UnansweredStalls` | cw04/zad3b/sender.c:73-86 | with an unknown mode of the sender, or one program using standard and the other real-time signals, a run reaches a state where nobody can step and the sender waits |
| `Signals.UnacknowledgedStalls` | cw04/zad3b/catcher.c:16-28 | and so it does with an unknown mode of the catcher |
| `Signals.RunsEndWellIff` | cw04/zad3b/sender.c:59-101 | for every pair of modes, all runs end both processes with n signals counted by both if and only if both modes are known and of the same kind |
| `Handshake.Link.ToCatcher` | cw04/zad3b/sender.c:76-84 | a signal that is pending already merges, except a real-time one; one that the catcher does not handle is blocked or ends it |
| `Handshake.Link.RunMain` | cw04/zad3b/sender.c:73-101 | a statement of the sender's main changes its globals as the state machine says |
| `Handshake.Link.RunHandler` | cw04/zad3b/sender.c:13-26 | the same for the sender's handlers |
| `Handshake.Link.RunCatcher` | cw04/zad3b/catcher.c:10-49 | the same for the catcher's handlers |
| `Handshake.Link.Step` | cw04/zad3b/sender.c:73-101 | one step of either process or one interruption is that of the state machine |
| `Handshake.Link.Run` | cw04/zad3b/sender.c:73-101 | under any schedule every move that is possible is made, in order, deliveries at any line included; the states are a run of the state machine without loss, and where no move is left and the modes fit, both processes have ended with n signals counted |
| `Board.Winner` | cw10/zad1/client.c:241-277 | a winner has three in a line, and without a winner nobody has |
| `Board.ReplayTurns` | cw10/zad1/client.c:194-200 | O and X alternate: their squares differ by one exactly when `move` is false, together they are the moves made, and the board is full after nine |
| `Board.OnlyLastMoverHasLine` | cw10/zad1/client.c:218-239 | in a game that stops when it is over, whoever did not move last has no line |
| `Board.OneLineOwner` | cw10/zad1/client.c:241-277 | at most one symbol has a line, and check_winner names exactly it |
| `Board.VerdictsComplement` | cw10/zad1/client.c:218-239 | on one board one player is told WIN exactly when the other is told LOST, and both DRAW together |
| `Board.VerdictsFollowLines` | cw10/zad1/client.c:218-239 | in a game a player is told WIN exactly if its own symbol has a line, LOST exactly if the other one has, and DRAW exactly after nine moves without a line |
| `Board.LinesAreFifteen` | cw10/zad1/client.c:241-277 | the eight lines are the three different squares of a magic square that add up to 15 |
| `Game.StepInv` | cw10/zad1/client.c:163-183 | every timely step keeps the two boards together but for one move on its way |
| `Game.ClientsStayInStep` | cw10/zad1/client.c:163-183 | in every timely run each board is that of all moves or lacks the last one, which is in the inbox or being read; at most one client may move, and then the boards are equal |
| `Game.BoardsStayFair` | cw10/zad1/client.c:194-200 | in every timely run at most nine moves are made, #O - #X is 0 or 1 as `move` says, and at most one symbol has a line |
| `Game.NotOverMoves` | cw10/zad1/client.c:135-187 | until both clients have ended one of them can go on |
| `Game.StepWorks` | cw10/zad1/client.c:163-183 | every step lowers the bound on what is left |
| `Game.RunsAreShort` | cw10/zad1/client.c:163-183 | a timely run has at most 36 steps |
| `Game.RunsEndFairly` | cw10/zad1/client.c:218-239 | a timely run that cannot be continued has ended with equal boards, the player with a line told WIN and the other LOST, or both DRAW after nine moves without a line |
| `Game.EveryGameIsPlayed` | cw10/zad1/client.c:135-187 | every game that the rules allow, finished or not, is played by some timely run: both boards show it, nothing is on its way, and if it is over both clients have ended with the right verdicts |
| `Game.ReceiptCountsIffTimely` | cw10/zad1/client.c:121-122 | a move that is received reaches the board if and only if the receiver is not between sending its own move and the end of its turn |
| `Game.InStepIffTimely` | cw10/zad1/client.c:121-122 | in every run, with messages received at any time, both boards follow the moves throughout if and only if no move is received between the sending of a move and the end of that turn |
| `Game.UntimelyReceiptStallsIff` | cw10/zad1/client.c:180-183 | a move received there is forgotten: once all turns are ended, in either order, both clients wait for a move if and only if that one did not end the game |
| `Game.BothWaitForEver` | cw10/zad1/client.c:157-162 | clients that both wait, with nothing on its way, never step again |
| `Game.FirstTurnCanStall` | cw10/zad1/client.c:180-183 | a concrete run of five steps leads there |
| `Player.LoopsFindWinner` | cw10/zad1/client.c:241-277 | the loops that keep the last column and row find what Winner does |
| `Player.Process.Move` | cw10/zad1/client.c:194-200 | a free square among the nine is filled with O if `move` is set and with X if not, and the turn passes; any other is refused and nothing changes |
| `Player.Process.CheckWinner` | cw10/zad1/client.c:241-277 | the result is the owner of a line, or FREE if there is none |
| `Player.Process.Check` | cw10/zad1/client.c:218-239 | WIN needs a line of the own symbol, LOST one of the other, one of them is told exactly if there is a line, DRAW exactly on a full board without one; and the client quits exactly if one of the three is told |
| `Player.Process.Play` | cw10/zad1/client.c:169-180 | the first half of a turn is that of the state machine |
| `Player.Process.Finish` | cw10/zad1/client.c:181-183 | and so is the second |
| `Player.Process.Apply` | cw10/zad1/client.c:163-168 | the opponent's move is made as the state machine says |
| `Table.AddKeepsPairs` | cw10/zad1/server.c:161-191 | adding keeps names distinct, odd slots paired and at most one client alone; an odd index has an opponent, an even one has none; one more slot is in use |
| `Table.FreshPairIsEven` | cw10/zad1/server.c:173-180 | when nobody is alone the first free slot is even and its partner free |
| `Table.RemoveKeepsPairs` | cw10/zad1/server.c:193-212 | removing a client and its opponent keeps the pairs and the count |
| `Table.SweepKeepsPairs` | cw10/zad1/server.c:142-159 | a round of ping keeps the pairs |
| `Table.RunsStayPaired` | cw10/zad1/server.c:71-105 | through every sequence of commands and rounds of ping the table stays paired, with the names distinct |
| `Table.OnlineIffHeard` | cw10/zad1/server.c:100-104 | in every run a client is online if and only if it has joined or answered since the last round of ping |
| `Table.LeavesIff` | cw10/zad1/server.c:142-159 | in every run a client leaves the table exactly when it or its opponent quits, or when at a round of ping one of the two has neither joined nor answered since the round before; otherwise its name and descriptor stay in its slot |
| `Table.WhoAnswersStays` | cw10/zad1/server.c:100-104 | a pair, or a single client, that answers every round is never removed |
| `Table.SilentClientsLeave` | cw10/zad1/server.c:142-159 | two rounds without an answer in between empty the table |
| `Server.SweepOne` | cw10/zad1/server.c:146-149 | one turn of the eviction loop, which changes the table it scans, keeps the table what the slots seen so far say |
| `Server.Process.AddClient` | cw10/zad1/server.c:161-191 | -1 exactly for a name in use or a full table, nothing being changed; otherwise a free slot holds the client, online, which is the odd one of a pair exactly if somebody waited alone |
| `Server.Process.RemoveClient` | cw10/zad1/server.c:193-212 | the client's slot and its opponent's are empty, the others as before, and the count follows |
| `Server.Process.Evict` | cw10/zad1/server.c:146-149 | a slot survives exactly when it was online and its opponent slot was empty or online |
| `Server.EveryClientIsPinged` | cw10/zad1/server.c:150-155 | the pings go to the clients in the table, each once, and to nobody else |
| `Server.Process.PingRound` | cw10/zad1/server.c:142-159 | the survivors, with online = 0, are left, and each is sent a ping |
| `Server.Process.Add` | cw10/zad1/server.c:71-91 | whom the command tells what: name taken, no enemy, or O and X to the two of a pair |
| `Server.Process.Relay` | cw10/zad1/server.c:92-97 | a move goes to the opponent of whoever sent it |
| `Server.Process.Pong` | cw10/zad1/server.c:100-104 | the client of that name has `online` set, and every other slot, like all slots for an unknown name, is as before |
| `Server.Process.Quit` | cw10/zad1/server.c:98-99 | the client and its opponent leave |
| `Negative.ShareUnique` | cw08/zad1/main.c:126-130 | every value or column is in the share of exactly one thread, also with more threads than values or columns |
| `Negative.DocumentedIff` | cw08/zad1/main.c:153-157 | every thread has the share that the documentation asks for, in multiples of the ceiling, if and only if the number of threads divides that of the columns |
| `Negative.EqualValuesIff` | cw08/zad1/main.c:126-130 | all threads have equally many values if and only if the number of threads divides 256 |
| `Negative.FiveByTwo` | cw08/zad1/main.c:153-157 | with five columns and two threads the middle column is not with the thread that should have it |
| `Negative.OwnerWrites` | cw08/zad1/main.c:153-157 | a thread writes a pixel it passes exactly if it is the one that has to |
| `Negative.StepInv` | cw08/zad1/main.c:132-138 | every step of any thread keeps each pixel black or right, and written once exactly if its thread has passed it |
| `Negative.ThreadsComputeNegative` | cw08/zad1/main.c:119-170 | under every interleaving no pixel is written twice, and when all threads are done each was written once and the picture is the negative |
| `Negative.MethodsAgree` | cw08/zad1/main.c:119-170 | the two methods give the same picture, with any numbers of threads and any schedules |
| `Negative.EveryScheduleEnds` | cw08/zad1/main.c:119-170 | every run has a bounded number of steps, and where none is left the picture is the negative with every pixel written once |
| `Negative.SchedulesReach` | cw08/zad1/main.c:119-170 | any interleaving is that of some schedule with as many turns |
| `Negative.AllPaint` | cw08/zad1/main.c:119-170 | the threads one after the other paint the negative |
| `Threads.Program.NumbersMethod` | cw08/zad1/main.c:119-138 | one thread's loops write exactly the pixels it owns, in the array |
| `Threads.Program.BlockMethod` | cw08/zad1/main.c:146-164 | the same for its columns |
| `Threads.Program.ComputeNegative` | cw08/zad1/main.c:119-170 | the array negative_image is the negative of the array image |
| `Threads.Interleaving.Step` | cw08/zad1/main.c:132-138 | a thread's step on the shared array is that of the state machine |
| `Threads.Interleaving.Run` | cw08/zad1/main.c:119-170 | under any schedule every turn of a thread that is not done is taken, in order; the invariant holds, and if all are done the array is the negative |
| `Decimal.ScansPrinted` | cw08/zad1/main.c:112 | a printed number that no digit follows is read back, and nothing behind it |
| `Decimal.ScansSigned` | cw08/zad1/main.c:112 | so is any number with its sign, and a plus sign is passed over |
| `Decimal.DigitsLead` | cw08/zad1/main.c:209 | a printed number has no leading zero |
| `Pgm.ReadsPrintedHeader` | cw08/zad1/main.c:87-104 | the header written, with its comment line, is read as the same width and height |
| `Pgm.ReadsHeaderWith` | cw08/zad1/main.c:87-104 | of all numbers in the place of the maximum 255 is accepted and every other refused |
| `Pgm.SizeOfOne` | cw08/zad1/main.c:90-93 | a size line with one number leaves the height as it was, and one without any the width as well |
| `Pgm.CommentPassedOver` | cw08/zad1/main.c:87-90 | a line that begins with # is passed over wherever it stands |
| `Pgm.Line` | cw08/zad1/main.c:81-87 | a line read has at most 2047 characters and, if it has fewer, ends with the first line end or the file |
| `Pgm.PrintsMaximum` | cw08/zad1/main.c:208-211 | what is saved begins with P2, and its maximum is 255 |
| `Pgm.RowIsLine` | cw08/zad1/main.c:212-217 | each row is saved as one line |
| `Pgm.EndRepeats` | cw08/zad1/main.c:109-115 | where no number is left to be read the pixels repeat the last one |
| `Pgm.HeaderMayEnd` | cw08/zad1/main.c:83-107 | an empty file is refused; one that ends with its first line or with its sizes is loaded, with nothing or zeros for what is missing |
| `Pgm.ReadsRows` | cw08/zad1/main.c:109-115 | the rows written are read as the same pixels |
| `Pgm.LoadsSaved` | cw08/zad1/main.c:72-117 | loading what was saved gives the picture back |
| `Pgm.TwiceIsIdentity` | cw08/zad1/main.c:202-219 | load, invert and save, done twice, gives back the picture of every file that holds a sound one |
| `PictureFile.LoadPicture` | cw08/zad1/main.c:72-117 | the loops fill the array with what the grammar says, and fail exactly when it does |
| `PictureFile.SavePicture` | cw08/zad1/main.c:202-219 | the loops print the picture in the array, as a file that begins with P2 |
| `Tree.VisitedOnce` | cw02/zad3/read_directories.c:62-93 | a line is reported exactly once if its path leads to a directory and it says so, or to another file of the very kind it tells, and otherwise not at all |
| `Tree.DirectoriesFirst` | cw02/zad3/read_directories.c:68-87 | a directory is reported before all that is below it |
| `Tree.LookupJoins` | cw02/zad3/read_directories.c:75-86 | a path continued behind a directory leads where the rest leads from there |
| `Tree.FoundIffListed` | cw02/zad3/read_directories.c:82-84 | a name stands for the entry listed under it, and the names "." and ".." for nothing |
| `Tree.LinesPerKind` | cw02/zad3/read_directories.c:15-45 | there are as many lines of a kind as nodes of it |
| `Walker.CountersTally` | cw02/zad3/read_directories.c:15-45 | each of the seven counters grows by the number of nodes of its kind |
| `Walker.WalkTallies` | cw02/zad3/read_directories.c:15-45 | all seven counters at once, each with the kind that it counts |
| `Walker.Process.GetFileType` | cw02/zad3/read_directories.c:15-45 | one line with the path in the buffer, and the counter of its kind |
| `Walker.Process.DoRecurPath` | cw02/zad3/read_directories.c:62-93 | the output grows by the lines of the tree under the path in the buffer, the counters by its nodes, and the buffer holds the same string as before |
| `Walker.Process.VisitEntry` | cw02/zad3/read_directories.c:82-87 | the dots are passed over; any other entry is walked with its name behind the path, and the path is left as it was up to the name |
| `Walker.Process.ReadDirectories` | cw02/zad3/read_directories.c:96-113 | from an absolute path the tree at its end is reported, and the seven totals printed are the numbers of its nodes of each kind |
| `CString.Copy` | cw02/zad3/read_directories.c:85 | the string stands behind the prefix that was in the buffer |
| `CString.TextIs` | cw02/zad3/read_directories.c:16 | what is read from a buffer up to its end is the string it holds |
| `Codec.StrtokIs` | cw06/zad2/shared.h:67 | the token is the first run of characters other than dashes and the dash behind it is dropped; there is none exactly if there are only dashes |
| `Codec.ParsesPrinted` | cw06/zad2/shared.h:64-78 | a printed number is read back without its sign, and zero as an error if errno is set |
| `Codec.StrtolLimits` | cw06/zad2/shared.h:71 | digits beyond the greatest long give it with errno set, also with a sign, and no digits give zero without an error |
| `Codec.ParsedText` | cw06/zad2/shared.h:80-89 | whatever is parsed has a text that is not empty and has no dash |
| `Codec.RereadIff` | cw06/zad2/shared.h:91-105 | the message with something left behind it is read back if and only if its text and first three numbers are and the time is |
| `Codec.RoundTripIff` | cw06/zad2/shared.h:37-105 | parse_message(create_message(m)) = m if and only if the numbers survive, the text is not empty and has no dash, and with errno set no number is zero |
| `Codec.StaleTailIff` | cw06/zad2/server.c:51-57 | in a buffer used before, a message that travels is read back if and only if no digit is left behind it, or its time is the greatest, or it is zero and so are the digits left |
| `Codec.EncodeIs` | cw06/zad2/shared.h:37-51 | the text sent is type, text, sender, receiver and time with dashes in between, and "(null)" stands for an empty text |
| `Codec.ArrivesAs` | cw06/zad2/shared.h:91-105 | exactly what a message without a dash in its text arrives as: signs are lost, ints wrap around, the greatest long stands for the smallest, and it is refused if errno is set and a number is zero, or if its type becomes -1 |
| `Codec.TooFewTokens` | cw06/zad2/shared.h:91-105 | a text with fewer than five tokens is refused |
| `Chat.StrtokR` | cw06/zad2/shared.h:67 | in the array: the token and what follows it, or nothing exactly if there are only dashes |
| `Chat.Shift` | cw06/zad2/shared.h:72 | what stood behind the token stands at the front |
| `Chat.Process.ParseLong` | cw06/zad2/shared.h:64-78 | number, errno and the rest of the array are those of the specification |
| `Chat.Process.ParseText` | cw06/zad2/shared.h:80-89 | text and the rest of the array are those of the specification |
| `Chat.Process.ParseMessage` | cw06/zad2/shared.h:91-105 | the message, or NULL, and errno are those of the specification, and the caller's array is unchanged |
| `Chat.Process.CreateMessage` | cw06/zad2/shared.h:37-51 | the array holds the encoded message |
| `Chat.Process.Transmit` | cw06/zad2/shared.h:37-105 | created and parsed in place, a message arrives as it was sent if and only if it is one that travels, and without a dash in its text as ArrivesAs says |
| `BlankLines.LinesOfText` | cw02/zad1/main.c:38-59 | a text is cut into lines, the last of which may lack its end, and nothing is lost |
| `BlankLines.BlankIff` | cw02/zad1/main.c:43-50 | a line is blank exactly if each of its characters has the code 32 or one from 9 to 13 |
| `BlankLines.FilterKeepsLines` | cw02/zad1/main.c:38-59 | the lines of the output are the lines of the input that are not blank, in order and unchanged |
| `BlankLines.FilterTwice` | cw02/zad1/main.c:38-59 | filtering twice is filtering once, and changes nothing exactly if no line is blank |
| `LineCopier.ScanLine` | cw02/zad1/main.c:43-50 | the line is to be written exactly if it is not blank; a blank one has been passed |
| `LineCopier.CopyLine` | cw02/zad1/main.c:53-57 | one line is copied to the output, and the input stands behind it |
| `LineCopier.LibOpenFile` | cw02/zad1/main.c:31-62 | it ends, and the output is the filtered input |
| `LineCopier.SysOpenFile` | cw02/zad1/main.c:64-97 | it ends, the output begins with the filtered input and keeps what was behind that before, and it is the filtered input exactly if the file was no longer before |
| `LineCopier.LibThenSys` | cw02/zad1/main.c:125-136 | both variants leave the same file |

## Left out

- Pizzeria.RunInv: the types of pizza are any natural numbers, of which the code's 0 to 9 are some; one size stands for both rings, because line 69 of cook.c wraps the table with the size of the oven; `pizzas++` and the updates of an index are single steps, which the mutexes justify.
- Kitchen.Shop.Lock: a process that cannot get on is tried again later; fairness of semaphores is not modelled.
- Santa.DeliveriesAreComplete: a return without a signal from the wait at line 172 is excluded (every other wait may return so); with it a reindeer counts twice, as CountedTwice shows.
- Santa.EnlistInBounds: speaks of the counter and of the array only; how many elves wait is the matter of ElvesQueue.
- Santa.OwnNumberEntered: the number of an elf is that of its thread here, `*id` there; what Santa prints of the queue is not modelled.
- Santa.MutexesNeverDeadlock: speaks of mutexes; whether Santa wakes up is the matter of Deliveries and Helping. The cancellation of elf threads at the end and `solving_time` are not modelled, and the read of `deliveries` at line 155 is one step.
- Eventually.HelpComesAtLastIff: continuations in which Santa's own wait returns without a signal are left out here and in Helping, because he may then come without a call.
- Signals.NoSignalIsLost: `wait` is read from memory each time, although the source does not declare it volatile; a signal that ends a process does so at once.
- Game.ClientsStayInStep: timely runs only, because the property fails in others, as ReceiptCountsIffTimely and UntimelyReceiptStallsIff say; both clients start with the first move to come, and messages other than moves are not modelled (a ping overwrites the buffer that `arg` points into).
- Player.Process.Move: square 9, which the bound `position > 9` lets pass, is excluded; it lies outside the array.
- Server.Process.Quit: a name that is not registered, with which the source accesses slot -1, is excluded, and so is relaying by such a name or to an absent opponent.
- Server.Process.Add: check_messages, which assumes that the slots in use come first, and the sockets are not part of this model; descriptors are numbers.
- Pgm.LoadsSaved: sizes are below 2^31; a pixel or a maximum that a file does not contain is taken as 0 and `get_max_pixel` as false at the start, where the source leaves them uninitialised; negative sizes are a failure.
- Threads.Program.ComputeNegative: the file of times is not modelled.
- Walker.Process.DoRecurPath: the tree does not change, every directory can be opened, and the buffer is long enough; links, sizes and times in the output are not modelled, nor is the variant of cw02/zad3 with nftw.
- Chat.Process.CreateMessage: the encoded message must fit into 2047 characters; sprintf prints "(null)" for a null pointer, as the GNU library does.
- Chat.Shift: strcpy with operands that overlap copies from left to right.
- LineCopier.LibOpenFile: files that cannot be opened; input and output are different files.
- Sleeping, printing of progress, creation of processes and threads, set-up and removal of shared memory, queues and semaphores, and the handlers of SIGINT.
- cw10/zad2, the same game over datagrams; the loops of the chat's client and server in cw06; cw01, cw02/zad2, cw03, cw05 and the other exercises of cw04.
