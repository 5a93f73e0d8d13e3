# Verification of ceclircd

ceclircd listens to HDMI-CEC events through libcec and passes key presses on to LIRC clients over a Unix socket.
This project models its three hard parts in Dafny 4.11 and proves what they keep over every run:

* the LIRC broadcaster: a heap-allocated linked list of clients, prepended to on accept and swept in place after
  every message (`Subscribers.dfy`, `Lirc.dfy`), and the line protocol spoken to the clients (`Wire.dfy`);
* the daemon: the command queue and session loop (`Daemon.dfy`, `DaemonRuns.dfy`), becoming the active source
  (`Activation.dfy`), the key-repeat machine (`Keys.dfy`) and its uninitialised field (`Uninitialised.dfy`), the locks
  of its threads (`Locks.dfy`), the composition of all of it (`System.dfy`), the loop on a schedule (`Execution.dfy`),
  what each callback and command does (`Callbacks.dfy`), that everything that comes in arrives (`Arrivals.dfy`), and
  the class whose methods do the work (`Main.dfy`);
* HDMI addresses: the stream operations used (`Streams.dfy`), the physical address parser and printer (`Hdmi.dfy`)
  and the full address parser and printer (`HdmiAddress.dfy`).

`Sequences.dfy` holds shared helpers. `dafny verify dfyconfig.toml` checks the whole project.

## How to read it

Code that changes things step by step is modelled by classes and methods (`LircList.Lirc`, `MainClass.Main`, the two
`Read...` parsers), each proved equal to a function on values; the theorems over all runs are about these functions.
Schedules are arbitrary sequences of labels: a label that is not enabled does nothing, so every sequence is a schedule.
The environment is universally quantified. What `write` returns is any function of connection and message number,
what `accept` returns is any number that is negative or not an open descriptor, and which callback, signal or
connection comes next is any sequence. Descriptor numbers may be reused after a close; connections have their own
identities, and that the two never get mixed up is proved. `hide` statements only keep definitions out of the
solver's sight inside a proof.

Where the code does not do what it evidently intends, the code is modelled as it is, and it is proved exactly when
it falls short:

* `restart` is a local of the loop that is set and never reset (src/main.cpp:115, 190, 218). A processed EXIT
  therefore ends the program exactly when no RESTART was ever processed (`DaemonRuns.WhenTheLoopReturns`). The flag
  `clearing` of the model switches to the intended version, in which every EXIT does.
* `makeActive` is read by `onCecCommand` without the lock and before its push (src/main.cpp:428-432), so the "remind
  TV" push can undo a deactivation: an inactive device can come back with no activation reported exactly when an
  ACTIVE is queued, or under way, that the loop will live to process (`Activation.WhenItCanComeBack`).
* `signalHandler` takes `libcec_sync`, and SIGPIPE is raised inside `write` while `lirc_sync` is held. The daemon can
  deadlock exactly when its loop writes a line for STANDBY and some thread has a write that raises SIGPIPE
  (`Locks.WhenSigpipeDeadlocks`).
* `lastKey` is not initialised (src/main.cpp:87-88); its initial value is a parameter. The lines written depend on it
  exactly in histories with a third BUTTON_UP before any USER_CONTROL_PRESSED and any accepted key
  (`Uninitialised.WhenLinesAreDetermined`), and then exactly codes of which one has names can be told apart
  (`Uninitialised.WhenGarbageShows`).
* A full address prints its port as a raw character, since `port` is a `uint8_t` (src/hdmi.h:63, src/hdmi.cpp:157, 164).
  Both the printer as coded and the one with a decimal port are modelled; as coded a parsed address survives exactly
  when it has no port (`HdmiAddress.AsCodedRoundTrip`). The function has no `return` (src/hdmi.cpp:149-171); the model
  takes the text it has written.
* A failed parse of a full address can have changed it: a refused port is stored all the same, and is indeterminate
  when no number could be read (src/hdmi.cpp:136-143). `HdmiAddress.FailureLeavesAddress` and
  `HdmiAddress.JunkIsStored` say exactly when.

## Model

| member | source | states |
|---|---|---|
| LircList.Lirc.constructor | src/lirc.cpp:48-51 | the list starts empty, with no node allocated or freed |
| LircList.Lirc.ProcessNewClient | src/lirc.cpp:122-145 | a successful accept prepends one fresh node and a failed one frees the node it allocated; the list stays acyclic and every allocated node is listed or freed, never both |
| LircList.Lirc.ProcessEvent | src/lirc.cpp:147-177 | the two loops leave the same node objects in the same order, and of them exactly those for which write() answered the length of the message; the others are freed once each; kernel and clients are those of one broadcast |
| LircList.Lirc.WriteToAll | src/lirc.cpp:156-161 | the first loop writes once to each client, and closes and marks exactly those for which write() did not answer the length of the message |
| LircList.Lirc.Sweep | src/lirc.cpp:163-174 | the in-place unlinking with prev and next yields exactly the unmarked nodes, linked in order, and frees exactly the marked ones |
| LircList.Lirc.Bypass | src/lirc.cpp:166-169 | redirecting prev, or the head, skips one node and keeps both sides of the list linked |
| LircList.Lirc.Free | src/lirc.cpp:170-170 | only an allocated node that has not been freed may be freed |
| LircList.WriteAllIsBroadcast | src/lirc.cpp:156-161 | because descriptors are distinct, the loop of writes and closes has the effect of one simultaneous broadcast on descriptors and streams |
| LircList.WriteAllOpen | src/lirc.cpp:156-161 | when the loop comes to a client its descriptor is still open and its own, whatever was closed before |
| LircList.Prepare | src/lirc.cpp:147-177 | no node the sweep meets has been freed before, and the final state is well-formed |
| LircList.KeptByWrite | src/lirc.cpp:157-174 | a node is kept exactly if write() on its descriptor answered the length of the message |
| Subscribers.EveryRunIsFaithful | src/lirc.cpp:122-177 | for all accept and write answers, every state is a closed form of the log: which clients are listed and every byte each connection ever received |
| Subscribers.EveryRunRefinesTheLog | src/lirc.cpp:122-177 | a listed client has received the concatenation of all messages since its accept; a dropped one such a concatenation and then a proper beginning of the message it was dropped on |
| Subscribers.LiveClientHasEverything | src/lirc.cpp:147-161 | the same for one listed client in one state |
| Subscribers.DroppedClientHasPrefix | src/lirc.cpp:156-161 | the same for one dropped client in one state |
| Subscribers.ConnectionsAreConserved | src/lirc.cpp:128-174 | a connection is listed exactly when some descriptor is open for it; there are as many open descriptors as list nodes; listed descriptors are pairwise distinct although numbers are reused |
| Subscribers.BroadcastWellFormed | src/lirc.cpp:147-177 | a broadcast keeps descriptors matched, none leaked, and the list newest first |
| Subscribers.AcceptWellFormed | src/lirc.cpp:128-142 | so does an accept |
| Subscribers.HistoriesNest | src/lirc.cpp:141-174 | the history of a client is a suffix of the history of every client behind it in the list |
| Subscribers.BornAtAccept | src/lirc.cpp:130-142 | a connection's history starts at the end of the log at the time of its accept |
| Subscribers.LogIsTexts | src/lirc.cpp:147-161 | the log is the messages of the schedule, in order |
| Subscribers.SinceAccept | src/lirc.cpp:122-177 | what is in the log since a connection's birth is the messages of the schedule behind its accept |
| Subscribers.ClientReceivesLaterMessages | src/lirc.cpp:122-177 | in terms of the schedule alone: a client accepted after any beginning has received the concatenation of the messages broadcast after its accept, or, when dropped, of the first of them and a proper beginning of the next |
| Subscribers.SubscribedAfter | src/lirc.cpp:156-174 | a broadcast keeps exactly the clients whose write was complete |
| Subscribers.WriteDecides | src/lirc.cpp:156-174 | one broadcast, by the answers of write() alone: a client stays listed exactly if the answer is the length of the message, its stream grows by as many of the first bytes as were written, and an unlisted one is written nothing |
| Subscribers.WritesDecide | src/lirc.cpp:122-177 | a whole schedule, by the answers of write() alone: a client accepted after any beginning is still listed exactly if every later message was taken completely, and otherwise it received the messages before the first that was not, and as much of that one as was written |
| Subscribers.AcceptDecides | src/lirc.cpp:128-142 | a usable answer of accept() puts a new connection with nothing received at the front of the list; any other changes nothing |
| Wire.DecodeEncode | src/main.cpp:366-373 | complete lines followed by the beginning of another decode to exactly the records sent, and the rest |
| Wire.UniquelyDecodable | src/main.cpp:366-373 | equal byte streams mean equal sequences of (code, flag, name), the empty name included |
| Wire.ParseOfLine | src/main.cpp:370-370 | one line gives back hexadecimal code, flag and name |
| Wire.HexMeans | src/main.cpp:370-370 | the printed code has that value to base 16, by arithmetic on its characters 0-9 and a-f, and no leading zero |
| Wire.LineFields | src/main.cpp:370-370 | a line is four fields between spaces: the code in hexadecimal, the flag 0 or 1, the name, and RPICEC with the line end |
| Keys.RunMeetsSpecification | src/main.cpp:375-479 | for every history the stateful code emits, event by event, what a specification that sees only the history asks for, and lastKey and repeatCount are the replayed key and the repeat count of that history |
| Keys.TracksStep | src/main.cpp:375-479 | one event: emission and fields against the history specification |
| Keys.EmissionIsDetermined | src/main.cpp:383-392 | the history specification admits one emission only |
| Keys.WhenAPressWrites | src/main.cpp:378-396 | a press is stored and written, one line per name in the order of the table, exactly if its code has names and its duration is 0 or it is AN_RETURN or AN_CHANNELS_LIST; any other does nothing |
| Keys.WhenAnInjectedKeyWrites | src/main.cpp:401-409 | a synthesised key is stored and written exactly if its code has names |
| Keys.ControlPressedResets | src/main.cpp:466-470 | USER_CONTROL_PRESSED resets the repeat count, forgets the key and writes nothing |
| Keys.WhenAButtonUpWrites | src/main.cpp:471-479 | VENDOR_REMOTE_BUTTON_UP counts, and from the third on writes the stored key with flag 1 |
| Keys.ReleaseIsIgnored | src/main.cpp:383-383 | the report of a release, of any key but those two, can be left out of every history, wherever it is |
| Keys.PressStart | src/main.cpp:466-470 | the current press begins behind the last USER_CONTROL_PRESSED |
| Keys.UpsSnoc | src/main.cpp:471-473 | how each event changes the number of BUTTON_UPs of the current press |
| Keys.ReplaysSnoc | src/main.cpp:384-384 | how each event changes the key a repeat replays |
| Keys.HoldingAKey | src/main.cpp:383-392 | for every n: press and n BUTTON_UPs write each name once with flag 0 and then max(0, n - 2) times with flag 1 |
| Keys.NothingToRepeat | src/main.cpp:466-479 | without an accepted key since USER_CONTROL_PRESSED any number of BUTTON_UPs writes nothing |
| Keys.UninitialisedLastKey | src/main.cpp:87-88 | the shortest witness: three BUTTON_UPs at start-up emit a key exactly when the garbage in lastKey has names |
| Uninitialised.WhenLinesAreDetermined | src/main.cpp:87-479 | for every history: the lines written are the same whatever is in the uninitialised memory, if and only if no event of the history is a third or later BUTTON_UP before any USER_CONTROL_PRESSED and any accepted key (or no key has a name) |
| Uninitialised.WhenGarbageShows | src/main.cpp:87-479 | for every history and every two contents of that memory: the lines differ if and only if the history is so exposed and the contents are different codes of which at least one has names |
| Uninitialised.RunAlike | src/main.cpp:375-479 | two daemons with different garbage agree on repeatCount always, and on lastKey as soon as anything has been stored in it |
| Uninitialised.StepWrites | src/main.cpp:383-479 | an event that does not fall back on the garbage writes the same in both, one that does writes the names of each one's garbage |
| Uninitialised.ThreeButtonUps | src/main.cpp:471-473 | three BUTTON_UPs at start-up are exposed, two are not |
| Daemon.EveryRun | src/main.cpp:103-230 | in every state of every interleaving: accepted = processed ++ queued; every finished session ends with its first RESTART or EXIT; makeActive is the fold of all processed commands; the trace of calls is a function of the sessions |
| Daemon.KeepsConserved | src/main.cpp:148-230 | each step keeps accepted = processed ++ queued |
| Daemon.KeepsShaped | src/main.cpp:132-207 | each step keeps the shape of sessions and the meaning of running |
| Daemon.KeepsRestart | src/main.cpp:115-218 | each step keeps the meaning of restart: some RESTART was processed |
| Daemon.KeepsFolded | src/main.cpp:167-178 | each step keeps makeActive equal to the last ACTIVE or INACTIVE processed |
| Daemon.KeepsTrace | src/main.cpp:117-218 | each step keeps the call trace: makeActive() is called in a session exactly when the fold says so at its start, each close passes makeInactive exactly when no RESTART has been seen, and a failed lirc Open closes cec alone |
| Daemon.KeepsEnds | src/main.cpp:215-218 | each step keeps how the loop can have been left |
| DaemonRuns.QueueIsConserved | src/main.cpp:148-230 | over any number of sessions nothing accepted is lost or reordered, and what is queued now, behind a RESTART say, is processed next in the same order |
| DaemonRuns.DroppedPush | src/main.cpp:221-230 | over whole runs: removing a push made while no session is running, whatever comes before and behind it, changes nothing but that it is still under way |
| DaemonRuns.WhenTheLoopReturns | src/main.cpp:187-218 | at the end of a session the loop returns if and only if no RESTART was ever processed; with restart cleared per session, if and only if the session ended with EXIT |
| DaemonRuns.HowTheLoopReturned | src/main.cpp:192-218 | a loop that returned at its bottom was ended by EXIT |
| DaemonRuns.AfterExit | src/main.cpp:192-218 | after EXIT the loop is on its way out, with restart false and no further session opened, unless, as coded, a RESTART was processed before |
| DaemonRuns.KeepsLeaving | src/main.cpp:192-218 | no step leaves the way out; the next step of the loop thread is always enabled and brings it one step closer to its return, and no other step does |
| DaemonRuns.GetsOut | src/main.cpp:192-218 | so the loop returns in every continuation in which its thread gets to wait, wake and close, whatever comes before, between and behind |
| DaemonRuns.RestartIsSticky | src/main.cpp:115-218 | as coded, after one processed RESTART no schedule reaches the return at the bottom |
| DaemonRuns.ExitAfterRestartIsIgnored | src/main.cpp:187-218 | a concrete schedule on which EXIT is ignored as coded and obeyed with restart cleared |
| DaemonRuns.CallsAreBracketed | src/main.cpp:119-216 | in every state the cec and lirc calls are well bracketed, and both are closed between sessions and after a return |
| Activation.WhenItCanComeBack | src/main.cpp:103-432 | in every reachable state with an inactive device: some schedule activates it with no activation of it reported from then on, if and only if the loop goes on and an ACTIVE is queued that it comes to before an EXIT ends it, or one is under way and the loop outlives the queue |
| Activation.InARunningSession | src/main.cpp:424-432 | in a running session with no EXIT queued that is exactly: an ACTIVE is queued or under way |
| Activation.NoBetter | src/main.cpp:103-230 | no step but a report of its activation lets a device come back that could not |
| Activation.ComesBack | src/main.cpp:103-230 | otherwise a schedule without any callback brings it back |
| Activation.PassiveForGood | src/main.cpp:140-536 | from any state in which nothing asks for activation, no continuation without a report of one sets makeActive, queues ACTIVE or calls cec.makeActive() |
| Activation.NoSpontaneousActivation | src/main.cpp:140-536 | started with -a and never reported active, no interleaving does |
| Activation.ReminderUndoesDeactivation | src/main.cpp:424-432 | a concrete race in which a reminder under way re-enables a device that was reported inactive |
| Locks.WhenSigpipeDeadlocks | src/main.cpp:247-259 | with the handler running inside the write that raises SIGPIPE, for any number of threads with any work: some schedule deadlocks them if and only if a loop thread writes some line and some thread, the same or another, writes one that raises SIGPIPE |
| Locks.NoDeadlock | src/main.cpp:147-230 | without SIGPIPE, any number of loop, callback and acceptor threads with any amount of work never reach a deadlock in any interleaving |
| Locks.EveryRoleOrdered | src/main.cpp:147-205 | without SIGPIPE every thread takes libcec_sync only with nothing held; while the loop writes no line every thread takes lirc_sync only with nothing held, even with SIGPIPE; and each releases what it takes |
| Locks.LinesOrdered | src/lirc.cpp:126-176 | a line nests libcec_sync inside lirc_sync if it raises SIGPIPE, and nothing otherwise |
| Locks.RoleLocks | src/main.cpp:147-230 | a thread takes lirc_sync once for each line it writes or connection it accepts, and libcec_sync once for each push and each raising line, and twice for each round of the loop |
| Locks.OrderlyIsNotDeadlocked | src/main.cpp:221-230 | threads that respect an order, whichever mutex is the outer one, are not deadlocked |
| Locks.LoopBlocksItself | src/main.cpp:147-259 | a loop thread with a raising line can come to wait for the libcec_sync it holds |
| Locks.LoopAndCallbackBlock | src/main.cpp:147-259 | a loop thread that writes and a callback thread with a raising line can come to wait for each other |
| Locks.EmbraceBecomesDeadlock | src/main.cpp:147-259 | once two threads wait for each other, the others can be run until nobody can go on |
| Locks.SmallestDeadlocks | src/main.cpp:247-259 | one loop thread with one raising line deadlocks; so does one with a line and a callback thread with a raising one; without a line of the loop they do not |
| System.EndToEnd | src/main.cpp:366-399 | whatever happens before and after a client connects, in between the lines of a key event too: while it is subscribed its byte stream decodes to exactly the records written since; since then each thread has written what it had still to write and what its key events asked for, in order, but for what it has still to write now; and each event asked for what the history of events wants |
| System.EveryRunIsComposed | src/main.cpp:366-399 | in every interleaving of session steps, key events, single lines and accepts, with key events on any number of threads, the key machine tracks its history specification, every thread's lines are accounted for, and the broadcast log is the lines written |
| System.LiveClientDecodes | src/lirc.cpp:147-177 | the bytes of a subscribed client decode to the records written since it was accepted |
| System.DroppedClientDecodes | src/lirc.cpp:156-161 | the bytes of a dropped client decode to the records up to a later one, and a proper beginning of its line |
| System.PressAccounted | src/main.cpp:375-399 | a key event adds its lines behind what its thread has written and has still to write, and no other thread's |
| System.WriteAccounted | src/main.cpp:366-373 | writing a line moves it from the front of the thread's outbox to the end of what it has written |
| System.SinceThen | src/main.cpp:366-399 | the account of each thread holds between any two states of a run, and not from start-up alone |
| System.WritesRun | src/main.cpp:389-392 | writing k lines of an outbox in a row broadcasts the first k of them, in order |
| System.EventIsTaken | src/main.cpp:375-399 | a key event on any thread with nothing left to write is taken at once, with its lines in the thread's outbox |
| System.DaemonAlone | src/main.cpp:103-219 | the session loop inside the whole daemon is a schedule of the session loop alone |
| MainClass.Main.constructor | src/main.cpp:87-91 | the initial fields, lastKey being whatever is in memory |
| MainClass.Main.WriteLirc | src/main.cpp:366-373 | one line is broadcast |
| MainClass.Main.OnCecKeyPress | src/main.cpp:375-399 | an accepted key is stored and one line per name is broadcast, in order, with the flag repeatCount > 2; any other key changes nothing |
| MainClass.Main.OnCecKeyCode | src/main.cpp:401-409 | the same for a code with duration 0 |
| MainClass.Main.OnCecCommand | src/main.cpp:412-488 | each opcode has the effect of its steps of the whole daemon |
| MainClass.Main.OnKeyCommand | src/main.cpp:442-479 | the opcodes that concern keys |
| MainClass.Main.OnCecAlert | src/main.cpp:490-507 | the five alerts push RESTART, the others do nothing |
| MainClass.Main.OnCecConfigurationChanged | src/main.cpp:509-514 | the logical address is stored |
| MainClass.Main.OnCecMenuStateChanged | src/main.cpp:517-521 | the contents menu key is pressed |
| MainClass.Main.OnCecSourceActivated | src/main.cpp:523-536 | ACTIVE or INACTIVE is pushed for the own address only |
| MainClass.Main.Push | src/main.cpp:221-230 | queued exactly while running |
| MainClass.Main.Stop | src/main.cpp:232-235 | EXIT is pushed |
| MainClass.Main.Restart | src/main.cpp:237-240 | RESTART is pushed |
| MainClass.Main.SignalHandler | src/main.cpp:247-259 | SIGHUP and SIGPIPE restart, other signals stop |
| MainClass.Main.ProcessFront | src/main.cpp:150-197 | one command is handled and popped, as the function HandleCommand says |
| MainClass.Main.Drain | src/main.cpp:148-198 | the drain loop processes commands until the queue is empty or the session is over |
| MainClass.Main.Activate | src/main.cpp:140-143 | cec.makeActive() is called exactly if makeActive is set |
| MainClass.Main.AwaitTurn | src/main.cpp:204-216 | after a wait either another round or the close of the session |
| MainClass.Main.Loop | src/main.cpp:103-219 | on every schedule of callbacks and call results the nested loops reach the state, and are left in the way, that the function Execute says |
| Execution.HandledCommand | src/main.cpp:150-197 | one command, the lines of the power key included, is one Process step of the session loop |
| Execution.RunKeepsLoop | src/main.cpp:412-536 | callbacks move nothing the loop thread owns |
| Execution.ExecutionIsRun | src/main.cpp:103-219 | every execution of the loop is one of the interleavings of the whole daemon |
| Execution.LoopIsSound | src/main.cpp:103-219 | so whenever the loop thread is at a point where callbacks come in, all session invariants hold and every subscribed client can decode what was written since it connected |
| Callbacks.EverythingIsHandled | src/main.cpp:221-536 | opcode by opcode, alert by alert and signal by signal, in terms of the fields alone: what is queued while running, what becomes of lastKey and repeatCount, which lines are written, and that nothing else happens; a connect adds its client |
| Callbacks.ControlPressedHandled | src/main.cpp:466-470 | USER_CONTROL_PRESSED as a callback of the whole daemon |
| Callbacks.ButtonUpHandled | src/main.cpp:471-479 | VENDOR_REMOTE_BUTTON_UP as a callback of the whole daemon |
| Callbacks.FrontIsExecuted | src/main.cpp:150-197 | processing a command: STANDBY writes the power key's lines exactly if no standby command is configured, ACTIVE and INACTIVE set makeActive, RESTART and EXIT end the session, and RESTART is remembered |
| Arrivals.EverythingArrives | src/main.cpp:103-536 | nothing that comes in is lost, invented or reordered: after any schedule from start-up the callback thread's key events, the commands accepted and the number of connections are those read off the items of the turns taken |
| Arrivals.TurnArrives | src/main.cpp:140-216 | the same for one turn, whatever the loop does behind the batch |
| Arrivals.ItemArrives | src/main.cpp:221-536 | the same for one callback, signal or connection |
| Arrivals.DrainStops | src/main.cpp:148-198 | draining a queue with a RESTART or EXIT in it ends the session at the first of them |
| Arrivals.WhenASessionIsStopped | src/main.cpp:187-218 | two turns after a RESTART or EXIT is queued to a waiting session the loop has returned, or opens the next session exactly if a RESTART came first or was ever seen |
| Arrivals.StopSignalEndsTheProgram | src/main.cpp:187-258 | from start-up: with no RESTART processed, queued or pushed with it, a stop signal to a waiting session makes the loop return at its bottom two turns later, whatever else comes in |
| Arrivals.StartAndStop | src/main.cpp:103-258 | start up, a stop signal, and the loop has returned |
| Hdmi.PackedNibbles | src/hdmi.h:43-48 | indexing returns the low four bits of each value that was set |
| Hdmi.NibblesPacked | src/hdmi.h:39-48 | a 16-bit address is the packing of its four nibbles |
| Hdmi.PhysicalAddress.Set | src/hdmi.h:45-48 | the address becomes the packing of the four values |
| Hdmi.ReadPhysical | src/hdmi.cpp:45-87 | the do-while loop with its val, len and stream flags sets the address exactly for accepted tokens, only sets the fail bit for all others, and never indexes val out of bounds |
| Hdmi.PartRead | src/hdmi.cpp:57-58 | a part between dots is good exactly if the extraction reads it to its end with a value in 0..15 |
| Hdmi.RoundFacts | src/hdmi.cpp:57-75 | the fail bit, the value and the next character tell good from bad parts in every round |
| Hdmi.NextPart | src/hdmi.cpp:67-75 | a good part with a dot behind it leads to the next round |
| Hdmi.LastPart | src/hdmi.cpp:65-84 | a good part at the end of the token completes an accepted token with these values |
| Hdmi.TooManyParts | src/hdmi.cpp:75-80 | a dot after the fourth part is refused |
| Hdmi.PartLanguage | src/hdmi.cpp:57-58 | the language of a part: optional sign, at least one digit, leading zeros allowed, value in 0..15 |
| Hdmi.AcceptedNibbles | src/hdmi.cpp:83-83 | nibble i is the i-th part, or 0 when there is none |
| Hdmi.PhysicalLanguage | src/hdmi.cpp:45-87 | on every good stream the parser succeeds exactly if the next word is one to four parts with dots between them, each an optional sign and digits of a value in 0..15; nibble i is then the i-th value or 0; otherwise only the fail bit is set |
| Hdmi.PackOfNibbles | src/hdmi.h:45-48 | the first value is the most significant nibble |
| Hdmi.PrintedForm | src/hdmi.cpp:39-43 | an address is printed as its four nibbles in decimal, the most significant first |
| Hdmi.WordBehindSpace | src/hdmi.cpp:47-49 | reading a word skips white space before it and leaves what follows alone |
| Hdmi.PhysicalRoundTrip | src/hdmi.cpp:39-87 | for every address, whatever stands before and any rest that is empty or starts with a space, parsing the printed form gives the address back and consumes just that text |
| Hdmi.PrintingIsCanonical | src/hdmi.cpp:39-87 | print after parse is an idempotent canonical form on all accepted tokens |
| HdmiAddress.ReadAddress | src/hdmi.cpp:89-147 | stream and address after the parser, on success and on every failure, including what a failure has already stored |
| HdmiAddress.DeviceLanguage | src/hdmi.cpp:96-145 | the exact language of tv and av addresses: accepted if and only if the word names a device, with that device and port as result |
| HdmiAddress.TailPort | src/hdmi.cpp:131-144 | the port text is accepted exactly if it is a dot and a number in 1..15; characters behind the number are ignored |
| HdmiAddress.FailureLeavesAddress | src/hdmi.cpp:96-145 | a failed parse leaves the address as it was if and only if the text begins with a digit, or its first word with neither "tv" nor "av", or the logical address was that one and the port, if the word is longer, the byte that is stored |
| HdmiAddress.JunkIsStored | src/hdmi.cpp:134-143 | the result is independent of the uninitialised local if and only if the word is not "tv" or "av" with exactly one more character |
| HdmiAddress.RefusedPortIsStored | src/hdmi.cpp:131-143 | the number behind "tv" or "av" and one character is stored modulo 256, be it refused or not |
| HdmiAddress.OutOfRangeIsStored | src/hdmi.cpp:136-143 | in any context, any port out of 1..15 is refused, and its last eight bits are stored |
| HdmiAddress.ParsedIsCanonical | src/hdmi.cpp:89-147 | which values a successful parse into a blank address can give |
| HdmiAddress.FullRoundTrip | src/hdmi.cpp:89-171 | every address parsed from any stream survives printing with a decimal port and parsing, in any context |
| HdmiAddress.RawPortIsRefused | src/hdmi.cpp:149-171 | as coded, the output for every port 1..15 is refused by the parser |
| HdmiAddress.AsCodedRoundTrip | src/hdmi.cpp:149-171 | as coded, print and parse give a parsed address back if and only if it has no port |
| HdmiAddress.WhenAddressesSurvive | src/hdmi.cpp:89-171 | with a decimal port, exactly the canonical ones of all addresses an object can hold are given back by print and parse |
| Streams.NumberOfDecimal | src/hdmi.cpp:41-42 | a printed number reads back as itself |
| Streams.NoLeadingZero | src/hdmi.cpp:41-42 | no printed number but 0 begins with a zero |
| Streams.CharacterClasses | src/hdmi.cpp:92-93 | the digits and the white space, character by character |

## Left out

- MainClass.Main.Loop: callbacks come in batches at the points where the loop thread is outside libcec_sync; the finer interleavings, such as a callback between its read of makeActive and its push, are steps of Daemon and System instead.
- Execution.LoopIsSound: speaks of the states at these points, like MainClass.Main.Loop; System.EveryRunIsComposed and Daemon.EveryRun speak of every state.
- System.EndToEnd: a key event updates lastKey and repeatCount in one step; in the code the loop thread (on STANDBY) and a callback thread share them without a lock. The records of an event get their repeat flag with it, while the code reads repeatCount again for every line (src/main.cpp:389-392), so that an event on another thread can change the flag between two lines. The lines themselves are written one by one and interleave freely.
- System.EveryRunIsComposed: the same holds for its key events. A write answers -1 or a short count without raising SIGPIPE; the handler is modelled in Locks only.
- Locks.WhenSigpipeDeadlocks: the handler is installed with SA_RESETHAND, so after one SIGPIPE in a session the next ends the process; the theorem holds for every choice of raising lines, one in a session included.
- Locks.NoDeadlock: handlers of asynchronous signals that arrive on a thread holding libcec_sync are excluded, and system calls, including the join in lirc::Close, are assumed to return.
- HdmiAddress.DeviceLanguage: follows libstdc++ in reading a minus sign in front of an unsigned number modulo 2^32; other libraries may refuse such text.
- MainClass.Main.OnCecKeyPress: repeatCount is an unbounded integer, so the overflow after 2^31 BUTTON_UPs is not modelled.
- Socket set-up, select and the acceptor thread's start in lirc::Open, main_loop and Close: a running acceptor and usable locks are assumed. In the code the thread may see isRunning still false, and Close destroys a static mutex that is not initialised again.
- xalloc running out of memory and throwing inside processnewclient, which would leave lirc_sync locked.
- The entries of the CEC-to-key table: an abstract table with names free of spaces, line ends and NULs, and the UNKNOWN code outside the table (its value is defined in libcec's header, which is not part of this model).
- libcec.cpp: only open, close and makeActive appear, as calls in a trace.
- previous_input, repeat, grab and repeat_time, which are never used.
- main(): options, logging and daemonising; and the shell commands run on standby, activation and deactivation, of which only whether a standby command is configured matters.
