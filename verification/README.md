# Verified models of the exercises: chat programs, pthread programs, string library

This project models the three parts of the repository that keep state, and proves what they
guarantee, for every input, every schedule and every reachable state.

* **The connection table of the peer-to-peer chat, in two versions.** `SlotTable.dfy` holds the
  fixed array of 100 slots, its scans and the finite map from id to connection it stands for.
  `ChatTable.dfy` and `PeerTable.dfy` are the functions of `mid_project/chat.c` and
  `midProject_v2/src/client.c` that update it in place, one method per block under the mutex.
  `ChatSystem.dfy` and `PeerSystem.dfy` put all threads of each program together as a step system:
  one locked block is one step, and `accept`, `socket`, `connect` and `recv` are steps of the
  environment in between. `ChatSafety.dfy` holds the invariants of the first program,
  `ChatTheorems.dfy` what follows from them, `ChatReadBack.dfy` the id that `add_connection` reads
  after its unlock, and `ChatRuns.dfy` the runs they are about. `ChatLife.dfy` and `PeerLife.dfy`
  follow one connection of each program: how it gets into the table, what can take it out, and its
  handlers.
* **The pthread programs of `baitap4/main.c`**, each for any number of threads and rounds:
  `ProducerConsumer.dfy` (`bai3`), `LockedCounter.dfy` (`bai2`), `ReadersWriters.dfy` (`bai4`).
  Every statement that touches shared state is one step. Each file also has a class whose fields
  are the program's globals and whose methods perform the steps in place.
* **The string library `Baitap1/src/strutils.c`** in `StrUtils.dfy`, on NUL-terminated arrays, and
  the **command line** of `chat.c` in `CommandLine.dfy`: `fgets`, `strtok` cutting the line in
  place, `atoi` and the dispatcher; `CommandShapes.dfy` says what every line means. `Text.dfy` holds the character classes (sections 7.4.1.5 and
  7.4.1.10 of ISO C11), numerals and `strlen`; `Sums.dfy` sums over sequences.

`dafny verify dfyconfig.toml` verifies everything.

## Where the programs fall short, and exactly where

* `bai3`: with two or more rounds some schedule overwrites an item, and then the consumer sleeps
  for ever (`ExactOutcome`, `PossibleLosses`).
* `chat.c`, `recv_handler`: an old handler can drop a connection that is not its own
  (`ForeignDrop`); it drops its own exactly when that is still registered (`HandlerDropsOwn`), and
  a used slot has such an old handler exactly when it was freed from outside more often than
  handlers left on finding it free (`SecondHandlerExactly`).
* `chat.c`, `add_connection`: the returned id is read after the unlock and can be another
  connection's (`WrongIdReadBack`). It is the right one exactly if no other registration took the
  slot meanwhile (`IdReadBackExactly`). In the accept thread that can still happen exactly until
  the command thread begins to exit (`WrongReadExactlyWhen`), in the command thread always
  (`ConnectWrongReadAlways`). It is never negative, which is what keeps the caller from closing
  the socket again (`IdReadBack`, `ConnectIdReadBack`).
* `chat.c`, `cmd_connect`: endpoints are pairwise distinct among outgoing connections
  (`OutgoingDistinct`), not among all (`IncomingDuplicate`). A step breaks distinctness exactly if
  it registers an endpoint that is registered at that moment (`PeersDistinctAfter`), and for
  `connect` all holders of it are then accepted connections (`DuplicateExactlyWhen`).
* `chat.c`, `cleanup_and_exit`: a connection can be registered after the sweep exactly when the
  accept thread was waiting for one or holding one (`ExitClosesAllExactlyWhen`).
* `midProject_v2`, `exit`: over all interleavings, the ids that can be registered when the loop
  ends are exactly those not yet issued when it began and those from 1000 on that were registered
  then (`ExitLeavesExactly`, with `LateConnectionSurvives` and `HighIdSurvives`); run alone, the
  loop empties the table exactly when all active ids are below 1000 (`ExitSweep`).
* `midProject_v2`, `send_to_connection_id`: it sends after the unlock; the socket is still the
  connection's exactly if no handler of the id has ended meanwhile (`SendsOnOwnSocketExactly`),
  which is always possible (`StaleSendPossible`).
* `str_to_int`: the text of every `int` is read back except that of INT_MIN
  (`PrintedIntComesBack`).
* `chat.c`, `main`: a printed `send` line is read back exactly when it is shorter than the buffer
  (`SendRoundTripExactly`), and the tail of a longer one is run as the next command
  (`LongSendSession`); a line of exactly 1023 characters is followed by an empty round
  (`SessionRoundTrip`).

## Model

| member | source | states |
|---|---|---|
| ProducerConsumer.NoLostWakeup | baitap4/main.c:53-77 | in every run, with spurious wakeups, a consumer asleep without a signal finds the flag down unless the producer holds the mutex and is about to signal; the two critical sections exclude each other |
| ProducerConsumer.Conservation | baitap4/main.c:53-77 | whenever the mutex is free, produced = consumed + overwritten + what is in the slot |
| ProducerConsumer.ProducedIsDrawn | baitap4/main.c:54-62 | in every run item k is the value drawn at the write of the producer's round k, in 0..99, and there is one per write |
| ProducerConsumer.ConsumedInOrder | baitap4/main.c:53-77 | the consumed values are a subsequence of the produced ones and of the values that `rand` yields at the writes: none invented, duplicated or reordered |
| ProducerConsumer.ExactOutcome | baitap4/main.c:53-87 | a run that cannot continue has consumed N minus the overwritten items; both threads finish iff nothing was overwritten, and then consumed equals produced equals the values drawn; otherwise the consumer sleeps on an empty slot |
| ProducerConsumer.Progress | baitap4/main.c:53-77 | outside the two final situations some thread can move |
| ProducerConsumer.MeasureDecreases | baitap4/main.c:53-77 | an explicit measure falls with every step except a spurious wakeup, which adds a constant |
| ProducerConsumer.RunsAreBounded | baitap4/main.c:53-77 | no run has more than 35 steps per round plus 5 per spurious wakeup |
| ProducerConsumer.PossibleLosses | baitap4/main.c:53-77 | the number of lost items at the end can be k exactly when k is 0 or below N |
| ProducerConsumer.PossibleOutputs | baitap4/main.c:53-87 | the lists the consumer can take in a run in which both threads finish are exactly the lists of N values in 0..99 |
| ProducerConsumer.Bai3.RunProducer | baitap4/main.c:53-64 | the producer's statement at its program counter, in place, is the producer's step |
| ProducerConsumer.Bai3.RunConsumer | baitap4/main.c:66-77 | the consumer's statement at its program counter, in place, is the consumer's step |
| ProducerConsumer.Bai3.Play | baitap4/main.c:79-87 | playing any schedule in place reaches the state of the step system, which satisfies the invariant |
| LockedCounter.NoLostIncrement | baitap4/main.c:22-32 | in every state of every run at most one thread is in its section and the counter is the sum of completed increments, although an increment is a read and a write |
| LockedCounter.NeverStuck | baitap4/main.c:25-32 | a reachable state without an enabled thread is one where all have finished |
| LockedCounter.FinalCounter | baitap4/main.c:34-46 | a run of N threads with M rounds is complete exactly at 4NM steps, is never longer, and then the printed value is N times M |
| LockedCounter.Bai2.RunThread | baitap4/main.c:25-32 | a thread's statement, in place, is its step |
| LockedCounter.Bai2.Play | baitap4/main.c:34-46 | playing a schedule in place reaches the state of the step system; a complete one leaves N times M |
| ReadersWriters.WritersExclude | baitap4/main.c:100-107 | a writer in its section excludes every other writer and every reader |
| ReadersWriters.OutputNumbering | baitap4/main.c:92-107 | in every run the k-th writer line prints k and a reader line prints the number of writer lines above it; no thread prints twice |
| ReadersWriters.ReadersSeeCompletedWrites | baitap4/main.c:92-98 | a reader about to read sees the number of writers whose section is over, with none inside |
| ReadersWriters.NeverStuck | baitap4/main.c:92-107 | lock holders can always go on and a free lock is open to every waiting thread, so no preference of readers or writers deadlocks |
| ReadersWriters.LockAdmits | baitap4/main.c:92-107 | a waiting reader can enter iff no writer is inside, however many readers are; a waiting writer iff nobody is |
| ReadersWriters.AllReadersInside | baitap4/main.c:92-98 | all readers can be inside at once |
| ReadersWriters.FinalState | baitap4/main.c:109-125 | a run is complete exactly at 3 steps per reader and 5 per writer; then shared_data is the number of writers and exactly the program's threads have printed |
| ReadersWriters.Bai4.RunReader | baitap4/main.c:92-98 | a reader's statement, in place, is its step |
| ReadersWriters.Bai4.RunWriter | baitap4/main.c:100-107 | a writer's statement, in place, is its step |
| ReadersWriters.Bai4.Play | baitap4/main.c:109-125 | playing a schedule in place yields a well numbered output and, if complete, shared_data = number of writers |
| SlotTable.LookupAgrees | mid_project/chat.c:97-104 | linear search finds exactly the ids of the map, and their socket and address |
| SlotTable.AddInserts | mid_project/chat.c:65-95 | registering inserts one fresh id into the map; it fails exactly when the map is full or the thread cannot be created, and then the map is unchanged |
| SlotTable.RemoveDeletes | midProject_v2/src/client.c:53-67 | removing takes exactly that id out of the map and does nothing when it is not there |
| SlotTable.FullExactlyAtCapacity | midProject_v2/src/client.c:19-26 | the scan finds no free slot exactly when the map has as many entries as the table has slots |
| ChatTable.ConnTable.constructor | mid_project/chat.c:327-328 | the table starts empty, with next id 1 |
| ChatTable.ConnTable.AddConnection | mid_project/chat.c:65-95 | the in-place scan inserts the next id iff there is room and the thread starts; a failed thread start uses up the id |
| ChatTable.ConnTable.FindSlotById | mid_project/chat.c:98-104 | returns the slot of the id, or -1 exactly when the id is not in the map |
| ChatTable.ConnTable.Terminate | mid_project/chat.c:199-211 | removes the id and closes the one socket registered for it, or changes nothing |
| ChatTable.ConnTable.SendTo | mid_project/chat.c:214-238 | messages over 100 characters and unknown ids are refused, in this order; otherwise the message goes out on the socket registered for the id at that moment |
| ChatTable.ConnTable.CheckPeer | mid_project/chat.c:253-264 | true iff some registered connection has the endpoint |
| ChatTable.ConnTable.HandlerCheck | mid_project/chat.c:113-120 | stops iff the slot is free, else yields the socket registered for the connection now in the slot |
| ChatTable.ConnTable.HandlerDrop | mid_project/chat.c:132-138 | removes and closes whatever connection the slot holds by now, or changes nothing |
| ChatTable.ConnTable.Cleanup | mid_project/chat.c:303-310 | empties the table and closes the sockets of the used slots, each once, in table order |
| ChatSafety.RunKeepsInv | mid_project/chat.c:65-313 | every interleaving of command, accept and handler threads keeps the whole invariant |
| ChatTheorems.SocketOwnership | mid_project/chat.c:65-95 | in every reachable state the open sockets are the disjoint union of those of the used slots, one each, and those in the hands of the accept and the command thread |
| ChatTheorems.ClosedExactlyOnce | mid_project/chat.c:131-165 | no close ever hits a socket that is not open, opened = closed + open, and nothing is leaked |
| ChatTheorems.SendsOnOpenSocket | mid_project/chat.c:223-231 | the socket registered for an id is open |
| ChatTheorems.HandlerConservation | mid_project/chat.c:107-143 | per slot, live handlers + those that left it free = used + outside terminations; a used slot has the live handler started for its connection |
| ChatTheorems.RefinesMap | mid_project/chat.c:28-30 | ids in use are distinct and in [1, next_id), and the table is full exactly at 100 entries |
| ChatTheorems.OutgoingDistinct | mid_project/chat.c:253-294 | no two registered outgoing connections have the same ip and port, although the check gives up the lock before connecting |
| ChatTheorems.PeersDistinctAfter | mid_project/chat.c:65-95 | registering keeps all registered endpoints distinct iff they were distinct and the new one is not registered at that moment; no other step can break it |
| ChatTheorems.DuplicateExactlyWhen | mid_project/chat.c:253-288 | a connection made by connect shares its endpoint with another iff one is registered when it is registered, and all of those were accepted |
| ChatTheorems.HandlerDropsOwn | mid_project/chat.c:131-139 | a handler drops its own connection iff that is still registered; a second handler is alive iff the slot was freed from outside more often than handlers left, as it was if the connection is not its own |
| ChatTheorems.SecondHandlerExactly | mid_project/chat.c:107-143 | a used slot has a handler other than its connection's iff outside terminations exceed the handlers that left on finding it free |
| ChatReadBack.IdReadBack | mid_project/chat.c:88-90 | the id read after the unlock in the accept thread is never below the registered one, equals it while the connection is registered, and is never taken for a failure |
| ChatReadBack.ConnectIdReadBack | mid_project/chat.c:288-294 | the same for the command thread |
| ChatReadBack.IdReadBackExactly | mid_project/chat.c:68-91 | for both threads and every run between the unlock and the read, the id read is the one registered iff no other registration took the slot in between |
| ChatReadBack.WrongReadExactlyWhen | mid_project/chat.c:85-91 | the accept thread can come to read another id iff the slot holds another already or the command thread has not begun to exit, and its own iff the slot still holds it |
| ChatReadBack.ConnectWrongReadAlways | mid_project/chat.c:288-294 | whenever the command thread is about to read its id back, some run lets it read another; its own it can read iff the slot still holds it |
| ChatTheorems.ExitClosesAllExactlyWhen | mid_project/chat.c:298-313 | after the sweep the table is empty, and a run to the end can leave a connection iff the accept thread was waiting for or holding one |
| ChatTheorems.SweepIsCleanup | mid_project/chat.c:304-309 | the sweep step frees what the in-place loop frees and closes exactly the sockets it closes, in the same order; afterwards those and no others are no longer open |
| ChatTheorems.WrongIdReadBack | mid_project/chat.c:88-90 | a reachable state in which the id about to be returned belongs to another connection |
| ChatTheorems.ForeignDrop | mid_project/chat.c:131-139 | a reachable state in which the handler of connection 1 removes connection 2 |
| ChatTheorems.IncomingDuplicate | mid_project/chat.c:253-288 | for every endpoint, a reachable state in which an accepted connection and one made by connect both have it |
| ChatLife.StepOnTable | mid_project/chat.c:65-313 | a step removes from the map exactly the id it terminates, drops or sweeps, inserts at most the connection being registered with its socket and endpoint, and leaves all other entries alone |
| ChatLife.LeavesExactly | mid_project/chat.c:131-139 | over any run a registered connection is still there, unchanged, iff no step removed it, and its id never comes back |
| ChatLife.ConnectionStays | mid_project/chat.c:112-141 | whatever is received, a connection stays as it is until a receive of a handler of its slot fails or it is terminated or swept |
| ChatLife.MessagesKeepConnection | mid_project/chat.c:122-130 | in a run without failing receives, terminate for it and exit, a connection whose handlers have not failed stays |
| ChatLife.ReceivesOnOwnSocket | mid_project/chat.c:113-122 | a handler in recv whose connection is still registered receives on the socket registered for it |
| ChatLife.NextReceive | mid_project/chat.c:112-130 | after a message the handler looks at its slot again: it ends if the slot is free by then, and otherwise receives on the socket that is there |
| ChatLife.AcceptedIsRegistered | mid_project/chat.c:147-157 | the connection accepted is the one registered, with its socket and endpoint, whatever happens in between, if fewer than 100 are registered |
| ChatLife.ConnectGoesOnExactly | mid_project/chat.c:253-265 | connect goes on iff no registered connection has the endpoint |
| ChatLife.ConnectedIsRegistered | mid_project/chat.c:267-288 | the socket then opened is registered with that endpoint, whatever happens in between, and the id is read from its slot next |
| ChatLife.Hundred | mid_project/chat.c:65-95 | for every n up to 100 a reachable state with n connections and one more accepted, which gets in iff n is below 100 |
| ChatLife.AcceptEnds | mid_project/chat.c:148-156 | after a failed accept, or when done with a connection, the accept thread registers nothing more if the exit begins before its test |
| ChatLife.AcceptErrorEnds | mid_project/chat.c:151-156 | a failed accept ends the accept thread iff the exit has begun |
| ChatLife.HandlerLaw | mid_project/chat.c:107-143 | live handlers of a slot = used + frees by the command thread - handlers that ended on finding it free, all counted from the run |
| ChatLife.NoThreadStuck | mid_project/chat.c:107-175 | until the process ends every thread that has not ended can take a step, and a receive can succeed or fail |
| ChatLife.EnvironmentIsFree | mid_project/chat.c:147-288 | accept, socket, connect and thread creation can succeed or fail whenever they are called, and any command can be typed |
| ChatLife.CanAlwaysExit | mid_project/chat.c:298-313 | from every state of a running program some run ends the process with all sockets of the table closed |
| PeerTable.PeerConnections.AddConnection | midProject_v2/src/client.c:17-51 | returns the next id and inserts it iff there is room and the thread starts, else -1 and the map is unchanged; closes the socket iff there is room but no thread, which uses up the id |
| PeerTable.PeerConnections.RemoveConnectionById | midProject_v2/src/client.c:53-67 | returns 0 iff the id was active, takes exactly that id out of the map and closes the socket registered for it |
| PeerTable.PeerConnections.SendToConnectionId | midProject_v2/src/client.c:69-87 | looks up the socket of the id; -1, -2, -3 and 0 for unknown id, long message, failed send and success, in this order |
| PeerTable.PeerConnections.ExitSweep | midProject_v2/src/main.c:109-112 | run alone, the loop leaves exactly the ids from 1000 on, so it empties the table iff all active ids are below 1000, and closes the sockets of the others in the order of their ids |
| PeerSystem.StepAges | midProject_v2/src/client.c:17-67 | an entry leaves the table only by a removal of its own id; all others keep socket and endpoint, so a handler never removes a connection that reused the slot |
| PeerSystem.LifeCycle | midProject_v2/src/client.c:27-42 | over any run an id goes from unissued over active to gone, never back, and stands for one connection while active |
| PeerLife.AcceptedIsRegistered | midProject_v2/src/server.c:65-81 | the connection accepted is the one registered, under the next id, with its socket and endpoint, whatever happens in between; it is refused iff 100 are registered or its thread cannot be created |
| PeerLife.ConnectedIsRegistered | midProject_v2/src/main.c:73-82 | the same for the connection made by connect |
| PeerSystem.OneRemoverWins | midProject_v2/src/message.c:23-31 | of all racing removals of an id exactly one succeeds if it was registered and is gone, none otherwise |
| PeerLife.OneRemovalSucceeds | midProject_v2/src/client.c:53-67 | counted from the run, exactly one removal of an id finds it registered if it ever was and is gone at the end, none otherwise |
| PeerSystem.HandlersPerId | midProject_v2/src/server.c:76-89 | an active connection has a live handler and no id ever has more than two |
| PeerLife.AcceptedHandlers | midProject_v2/src/server.c:76-89 | an accepted connection starts with two handlers, or one if the second thread fails; from then on they only end, each once |
| PeerLife.ConnectedHandler | midProject_v2/src/client.c:34-47 | a connection made by connect has one handler until it ends |
| PeerSystem.RefinesMap | midProject_v2/src/client.c:11-13 | the table refines a map of capacity 100 |
| PeerSystem.SweepRemoves | midProject_v2/src/main.c:106-113 | under any interleaving, when the loop has ended every id issued before it and below 1000 is inactive and stays so; with nothing registered meanwhile and next_id at most 1000 the table is empty |
| PeerSystem.ExitLeavesExactly | midProject_v2/src/main.c:106-113 | over all interleavings, an id can be registered when the loop ends iff it was not issued when the loop began, or is at least 1000 and was registered then |
| PeerSystem.LateConnectionSurvives | midProject_v2/src/main.c:109-112 | for every id, a reachable start of the loop without it and a run to the end with it registered |
| PeerSystem.HighIdSurvives | midProject_v2/src/main.c:109-112 | for every id from 1000 on, a reachable start of the loop with it registered and a run to the end that leaves it registered |
| PeerLife.SweepLimits | midProject_v2/src/main.c:109-112 | id 999, if registered when the loop begins, is gone at its end in every run; id 1000 can be left |
| PeerLife.ListenerEnds | midProject_v2/src/server.c:66-70 | after the loop a listener whose accept fails registers nothing any more |
| PeerLife.ListenerGoesOn | midProject_v2/src/server.c:66-70 | before the exit loop has ended a failed accept changes nothing |
| PeerLife.NoThreadStuck | midProject_v2/src/main.c:35-120 | until the process ends every thread that has not ended can take a step |
| PeerSystem.SendsOnOwnSocketExactly | midProject_v2/src/client.c:69-87 | the socket looked up is still the one registered for the id when it is used, after the unlock, iff no handler of the id has ended in between |
| PeerSystem.StaleSendPossible | midProject_v2/src/client.c:78-83 | whenever a send has looked up the socket of an active id, some run removes the connection before the send |
| PeerLife.SendLookupExactly | midProject_v2/src/client.c:70-79 | a send has a socket iff its id is in the table, and it is that id's; afterwards the state is as before |
| StrUtils.StrReverse | Baitap1/src/strutils.c:4-22 | the in-place swaps reverse the string and leave the rest of the buffer alone; NULL is returned as it is |
| StrUtils.ReverseInvolution | Baitap1/src/strutils.c:14-19 | reversing twice gives the string back |
| StrUtils.ReverseTwice | Baitap1/src/strutils.c:4-22 | on one buffer, reversing twice restores every byte |
| StrUtils.StrTrim | Baitap1/src/strutils.c:25-56 | the overlapping copy leaves exactly the trimmed string, its terminator and the old bytes behind it |
| StrUtils.TrimIsTheSpan | Baitap1/src/strutils.c:30-46 | the trimmed string is the one text without white space at its ends that the string is with white space around it |
| StrUtils.TrimWhiteExactly | Baitap1/src/strutils.c:30-46 | nothing is left exactly of a string of spaces, tabs, newlines, vertical tabs, form feeds and carriage returns; otherwise none of them is at its ends |
| StrUtils.PaddingIgnored | Baitap1/src/strutils.c:64-109 | padding with any of these six characters is trimmed off and changes nothing for str_to_int |
| StrUtils.TrimIdempotent | Baitap1/src/strutils.c:25-56 | trimming twice is trimming once |
| StrUtils.TrimReverseCommute | Baitap1/src/strutils.c:4-56 | trimming and reversing commute |
| StrUtils.TrimTwice | Baitap1/src/strutils.c:25-56 | on one buffer, a second trim changes no byte |
| StrUtils.TrimReverseInPlace | Baitap1/src/strutils.c:4-56 | on one buffer, both orders of trim and reverse leave the same string |
| StrUtils.StrToInt | Baitap1/src/strutils.c:59-110 | returns 1 and stores the value iff the scan accepts, otherwise leaves the result untouched; NULL arguments give 0 |
| StrUtils.ParseIntExact | Baitap1/src/strutils.c:64-109 | accepted with value n iff the string is space* sign? digit+ space* with magnitude at most INT_MAX and signed value n |
| StrUtils.OneCharacterNumber | Baitap1/src/strutils.c:84-91 | a single character is a number iff it is one of 0 to 9, with its place among them as value |
| StrUtils.OneMoreDigit | Baitap1/src/strutils.c:88-98 | one more digit makes 10 times the value plus the digit, rejected iff that exceeds 2147483647 |
| StrUtils.IntLimits | Baitap1/src/strutils.c:93-109 | 2147483647 and -2147483647 are read, 2147483648 and -2147483648 rejected |
| StrUtils.ReadDigits | Baitap1/src/strutils.c:88-98 | the accumulator is the value of the digit run, or stops exactly when that exceeds INT_MAX |
| StrUtils.Accumulate | Baitap1/src/strutils.c:91-92 | no value of temp exceeds 21474836479, so a 64-bit long holds it |
| StrUtils.OverflowIsFinal | Baitap1/src/strutils.c:93-96 | a prefix of the digits never exceeds the whole, so the early return is right |
| StrUtils.RoundTrip | Baitap1/src/strutils.c:64-109 | a printed number with any white space, leading zeros and sign is read back, exactly up to INT_MAX |
| StrUtils.PrintedIntComesBack | Baitap1/src/strutils.c:88-109 | of all ints, INT_MIN alone is not read back |
| StrUtils.ParseIntAfterTrim | Baitap1/src/strutils.c:25-110 | str_to_int gives the same before and after str_trim |
| StrUtils.ParseTrimmedBuffer | Baitap1/src/strutils.c:25-110 | on one buffer, str_to_int accepts and yields the same before and after str_trim |
| CommandLine.CommandRoundTrip | mid_project/chat.c:366-428 | every printed command that fits the buffer is recovered with its arguments, whatever follows on the input |
| CommandLine.SendRoundTripExactly | mid_project/chat.c:370-421 | a printed send line comes back byte for byte, with leading and inner spaces, iff it fits the buffer; otherwise the message is cut to the prefix that fits |
| CommandLine.SessionRoundTrip | mid_project/chat.c:365-429 | commands typed one per line come back as that list, whatever follows, iff every line leaves room for its newline; each that just fits is followed by an empty round |
| CommandLine.LongSendSession | mid_project/chat.c:370-421 | of a send line that does not fit, the cut message is sent and the tail is read as the next command |
| CommandLine.SendLinesExactly | mid_project/chat.c:408-421 | a line is a send command iff it is blanks, `send`, blanks, a word, one blank and a non-empty message |
| CommandShapes.UnknownExactly | mid_project/chat.c:378-427 | a line is answered as unknown, with its first word, iff that word is none of the eight |
| CommandShapes.ExitExactly | mid_project/chat.c:422-423 | a line ends the program iff its first word is `exit` |
| CommandShapes.PlainExactly | mid_project/chat.c:381-399 | `help`, `myip`, `myport`, `list` and `exit` are recognised exactly by the first word; what follows is ignored |
| CommandShapes.NothingExactly | mid_project/chat.c:378-379 | a line is passed over iff it consists of blanks |
| CommandShapes.ConnectExactly | mid_project/chat.c:389-397 | a line is a connect command iff it has a second and a third word: the address and the number it is read as |
| CommandShapes.TerminateExactly | mid_project/chat.c:400-407 | a line is a terminate command iff it has a second word, read as the id |
| CommandShapes.UsageExactly | mid_project/chat.c:392-420 | the usage is printed iff the first word is `connect` with fewer than two words behind it, `terminate` with none, or `send` without an id or anything behind it |
| CommandShapes.AtoiOf | mid_project/chat.c:396-414 | white space, a sign and digits are read as the signed value, whatever other character follows |
| CommandShapes.AtoiOfNone | mid_project/chat.c:396-414 | without a digit there the number is 0 |
| CommandShapes.AtoiOfShown | mid_project/chat.c:396-414 | the text of every number, also a negative one, is read back |
| CommandShapes.LineLimits | mid_project/chat.c:366-376 | a line of up to 1022 characters is one command; of 1023 its newline stays on the input; of a longer one the first 1023 are a command and the rest stays |
| CommandShapes.LastLine | mid_project/chat.c:370-376 | the last line needs no newline |
| CommandShapes.NulEndsLine | mid_project/chat.c:370-376 | a NUL character hides the rest of its line |
| CommandShapes.SessionEnds | mid_project/chat.c:370-423 | `exit`, like the end of the input, ends the session, and what is typed behind it is not read |
| CommandLine.LineBuffer.Fgets | mid_project/chat.c:366-373 | the buffer holds the line up to a newline, 1023 characters or a NUL, and the rest stays on the input; false exactly at the end of the input |
| CommandLine.LineBuffer.ChopNewline | mid_project/chat.c:374-376 | the newline at the end of the string, if any, is gone |
| CommandLine.LineBuffer.Strtok | mid_project/chat.c:378-416 | cutting in place yields the next token and the text behind it, and does not touch earlier tokens |
| CommandLine.LineBuffer.ReadCommand | mid_project/chat.c:370-428 | one round on the buffer yields the command the dispatcher assigns to the input |
| CommandLine.LineBuffer.RunCommands | mid_project/chat.c:365-429 | the loop on one buffer yields the commands of the whole session, up to exit or the end of the input |

## Left out

- Real sockets, `getsockname`, `getifaddrs`, printing, `perror` and process exit: they are steps of the environment or parameters; a fresh socket number is any number that is not open.
- The listening socket and the datagram socket of `get_my_ip` (`mid_project/chat.c:37-59`): only connection sockets are counted.
- Closing of sockets in `midProject_v2` outside the table's own functions: `receive_handler` closes after `remove_connection_by_id` already did, and the callers of `add_connection` close after it failed; no claim is made there.
- The malloc failure in `add_connection` (`mid_project/chat.c:75-78`): it is assumed to succeed, as otherwise a used slot without a handler remains.
- Attribution of received bytes to a connection in `chat.c`: `recv` uses a socket number read before the unlock.
- Wrap-around of `next_id`, of the table's `int` fields and of the 64-bit counter: ids and counts are unbounded integers.
- Textual IPv4 addresses: an address is a text compared by equality; `inet_pton` and `inet_ntop` are not modelled, and the port range and self-connection checks before `connect` are not part of the step systems.
- The dispatcher of `midProject_v2/src/main.c`: it differs from the modelled one in the buffer size, in rejecting bad ports and long messages itself, and in calling `strtok` twice before testing for `send`.
- `atoi` outside the range of `int`, characters above 127 and locales other than C; strings longer than INT_MAX.
- `ProducerConsumer`, `LockedCounter`, `ReadersWriters`: the classes keep program counters as fields, since the threads' own loops cannot be interleaved inside one method; thread creation and joining are not steps.
- `pthread_cond_signal` with several waiters and fairness of the locks: there is one consumer, and no theorem needs fairness.
- baitap2, baitap3, baitap5 to baitap9, `bai1`, the makefiles and the demo of `Baitap1/src/main.c`: system-call demonstrations without logic of their own.
