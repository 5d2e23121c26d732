# Verified models of the coursework servers, shells and thread programs

Each `.dfy` file models one small program (or a library that several of them share) and proves what the
program is for. Fixed constants of the programs (buffer size, numbers of threads, the bound 50, line
buffer sizes) are parameters here, so every statement holds for all of them.

- `Ring.dfy`, `BoundedBuffer.dfy`, `BufferRuns.dfy`, `BufferProgress.dfy`, `BufferFairness.dfy`:
  producers and consumers around a ring buffer, with one mutex and two condition variables. Every
  statement of a thread is a step of its own, any number of threads run in any interleaving, a signal
  wakes one or more waiters if there are any, and waiters may wake by themselves, as IEEE Std
  1003.1-2017 allows (System Interfaces, `pthread_cond_wait` and `pthread_cond_signal`). Main results: no
  wakeup is lost, the threads never deadlock, the ring is a FIFO queue over every interleaving, and items
  flow for ever: under weak fairness if waiters wake only by signals, and under strong fairness whatever
  spurious wakeups there are.
- `TurnTaking.dfy`, `TurnFairness.dfy`: two threads that alternate through one condition variable; the
  output alternates in every run, and goes on for ever in every fair one, in the same two senses.
- `Scheduling.dfy`: what makes a scheduler strongly fair.
- `SharedCounter.dfy`: a writer and a reader on one mapped word. `flock` does not separate the two
  processes (they share one open file description after `fork`), so nothing is proved from it.
- `Text.dfy`, `Tokenizers.dfy`, `CommandLine.dfy`, `Pipelines.dfy`: C strings in a mutated buffer, the two
  in-place tokenizers, and the front end of the shell. Main results: both tokenizers leave pointers that
  read as exactly the maximal runs of non-blank characters; redirection extraction conserves tokens and
  stays within them exactly when the line ends in an even number of operators; a typed command is
  understood as that command exactly when it is not `exit` and does not by accident end in `&`, and so
  are two commands with a bar between them.
- `Delivery.dfy`, `SelectServer.dfy`: the single-threaded chat server around `select`. What is sent is
  told per connection (a socket from accept to close), so that a reused descriptor is not mistaken for
  the client that had it before.
- `Registry.dfy`, `UserFile.dfy`, `UserRuns.dfy`, `ChatRooms.dfy`, `Broadcasts.dfy`, `ChatSockets.dfy`,
  `ChatHistory.dfy`: the threaded chat server: its client list, its user file, and its room broadcasts
  amid unlocked accepts, closes and writes of names and rooms. A message goes to the socket number in a
  record and so to whichever connection has that number at the time.
- `Calculator.dfy`: the button-driven calculator.
- `Cgi.dfy`: request splitting and the form adder behind it (section 2.1 of RFC 9112; sections 4.1.7 and
  4.2 of RFC 3875).
- `LineLoops.dfy`: `cat` and `grep` over `fgets` (section 7.21.7.2 of ISO C11).
- `Option.dfy`: the `Option` datatype.

Where a program changes things in place, so does the model: `Ring.Buffer`, `Registry.Table`,
`UserFile.Users`, `SelectServer.Server` and `Calculator.Window` are classes, the tokenizers and trimmers
work on arrays, and each method is tied to a function whose properties the lemmas state. Programs with
threads are state machines over atomic steps.

What the code does differently from what it seems meant to do:

- The removal loop of `project2/gui_server.c` (lines 198-204) steps past the match before it starts to
  shift. Unless the leaving client is in the last slot, it stays listed and the client behind it is
  dropped (`Registry.WrittenIsIntendedIff`); over whole runs the list is right throughout exactly when
  clients leave in the reverse order of their coming (`Registry.ExactIffLastInFirstOut`).
- A record that the removal loop leaves behind keeps its socket number, which the kernel gives out
  again after the close. The new connection is then written some messages twice
  (`ChatSockets.TwoCopies` is such a run). `ChatSockets.TwiceIffClash` says exactly when a broadcast can
  come to that, and `ChatSockets.DistinctIffListsFresh` when the listed numbers stay distinct over a run.
- A redirect operator as the last token makes the shell step over the NULL that ends the tokens
  (`project1/myshell.c` lines 126, 128, 132); `CommandLine.DanglingIff` says for which lines.
- `cat` without `-n` copies a file exactly when there is no NUL in it (`LineLoops.CatLoop`,
  `LineLoops.CatStopsAtNul`), and `grep` sees lines exactly when they all fit the line buffer
  (`LineLoops.ChunksAreLinesIff`, `LineLoops.GrepMissesLongLine`).
- A registration without a password is accepted, and writes a line of one word. That shifts the pairs in
  which the file is scanned, for everybody registered after it: `UserRuns.LoginLost` is a run in which
  the next user registers with a password, cannot log in, and can register again. The promise that a
  registration makes for all later logins is kept exactly if the lines of one word before it are even in
  number (`UserRuns.PromiseKeptIff`); the very next login succeeds exactly then, or if the id is its own
  password (`UserRuns.LoginNextIff`), and a second registration is refused for ever in the same cases
  (`UserRuns.RefusedForeverIff`).
- If such a word ends the file and is the id asked for, it is compared with the password of the pair
  before, or, if it is the whole file, with whatever the password buffer held
  (`UserFile.FindIsPairedIff`, `UserFile.AuthIgnoresBufferIff`, `UserFile.PasswordMissing`). If every
  registration carries a password nothing of this can happen (`UserFile.AuthOnUsers`).
- A CGI program is told the length of a body that it is not sent, unless the method is POST
  (`Cgi.InputAsPromisedIff`, `Cgi.BodyWithGet`; section 4.2 of RFC 3875 promises the script that many
  characters).

## Model

| member | source | states |
|---|---|---|
| Ring.SlotIsRemainder | lab3/3/boundedbuffer.c:44 | the slot defined by going round the ring is the remainder the program computes |
| Ring.InsertEnqueues | lab3/3/boundedbuffer.c:43-45 | on a ring with `in` = (`out` + `totalitems`) mod size and room left, the three assignments append one item to the queue and keep that relation |
| Ring.RemoveDequeues | lab3/3/boundedbuffer.c:71-73 | on a non-empty ring the three assignments take the oldest item and leave the rest in order |
| Ring.Buffer.constructor | lab3/3/boundedbuffer.c:10-23 | the initial buffer is the empty queue |
| Ring.Buffer.Insert | lab3/3/boundedbuffer.c:43-45 | in place: the queue afterwards is the queue before with the item at its end |
| Ring.Buffer.Remove | lab3/3/boundedbuffer.c:71-73 | in place: the queue before is the returned item followed by the queue afterwards |
| BoundedBuffer.MutexStep | lab3/3/boundedbuffer.c:32-81 | every step of every thread keeps: a thread is in its critical section exactly if it owns the mutex |
| BoundedBuffer.RingStep | lab3/3/boundedbuffer.c:43-45 | every step, also between the assignments of an update, keeps `in` and `out` tied to the numbers of completed insertions and removals and the slots between them to the items inserted |
| BoundedBuffer.LogStep | lab3/3/boundedbuffer.c:83-99 | every step keeps: what a thread has produced or consumed is its own part of the insertion or removal log, but for the item a producer still carries |
| BoundedBuffer.WakeStep | lab3/3/boundedbuffer.c:37-47 | every step, signals and spurious wakeups included, keeps the wakeup invariant for either condition variable |
| BoundedBuffer.StepKeepsInv | lab3/3/boundedbuffer.c:32-99 | all four invariants together are inductive |
| BoundedBuffer.RunKeepsInv | lab3/3/boundedbuffer.c:32-99 | all four invariants hold after every run |
| BufferRuns.OneInside | lab3/3/boundedbuffer.c:34-52 | mutual exclusion in every reachable state |
| BufferRuns.NoLostWakeup | lab3/3/boundedbuffer.c:37-47 | in every reachable state with a thread waiting for items (or for room), the items (or free slots) are at most the threads of its role awake to take one plus those of the other role about to signal; with the mutex free, at most the woken ones |
| BufferRuns.NotAllWaiting | lab3/3/boundedbuffer.c:32-99 | with a producer and a consumer, no reachable state has every thread waiting |
| BufferRuns.SomeoneCanGo | lab3/3/boundedbuffer.c:32-99 | in every reachable state some thread can run its next statement, without a spurious wakeup |
| BufferRuns.RingIsQueue | lab3/3/boundedbuffer.c:43-45 | in every reachable state inserted = removed + queue, with never more than a buffer between; with the mutex free the ring is well formed and holds that queue |
| BufferRuns.QueueStep | lab3/3/boundedbuffer.c:60-81 | refinement: each step of an interleaving leaves the abstract queue alone, appends a producer's item to a queue with room, or hands its oldest item to a consumer |
| BufferRuns.ValuesKept | lab3/3/boundedbuffer.c:43-45 | the k-th removal takes the value of the k-th insertion |
| BufferRuns.TraceIsOffered | lab3/3/boundedbuffer.c:87-88 | over every run a producer has produced exactly the items of its `Begin` actions, in order, as read off the schedule |
| BufferRuns.OrderKept | lab3/3/boundedbuffer.c:83-99 | over every run what a producer has inserted are the items the schedule had it produce, in order, but for one it may still carry, and those that have left did so in that order |
| BufferRuns.ConsumedIsRemoved | lab3/3/boundedbuffer.c:95-98 | over every run a consumer has exactly its own removals |
| BufferRuns.ConsumedPrefixOfProduced | lab3/2/boundedbuffer.c:42-44 | over every run of one producer and one consumer, what is consumed is a prefix of the items the schedule had the producer produce, at most a buffer and one item behind |
| BufferRuns.AnyStart | lab3/3/boundedbuffer.c:101-125 | there are starts with any threads and any size |
| BufferRuns.AnythingGoes | lab3/3/boundedbuffer.c:37 | in every reachable state an idle thread may set out with any item, a waiter may wake by itself, and a signal may wake any of the waiters |
| BufferProgress.StepLowersRank | lab3/3/boundedbuffer.c:32-99 | every step other than a spurious wakeup completes an insertion or removal or lowers a rank, signals that wake everybody included |
| BufferProgress.NextUpdate | lab3/3/boundedbuffer.c:32-99 | from every reachable state, under weak fairness another insertion or removal is always completed |
| BufferProgress.ItemsFlowForever | lab3/3/boundedbuffer.c:83-99 | from every reachable state, under every weakly fair schedule, any number of items is eventually removed, in the order of insertion |
| BufferProgress.TurnsAreFair | lab3/3/boundedbuffer.c:83-99 | such schedules exist: threads that take turns, with any items, are weakly fair |
| BufferFairness.NextUpdate | lab3/3/boundedbuffer.c:32-99 | from every reachable state, spurious wakeups included, under strong fairness another insertion or removal is always completed |
| BufferFairness.ItemsFlowForever | lab3/3/boundedbuffer.c:83-99 | from every reachable state, under every strongly fair schedule with any spurious wakeups, any number of items is eventually removed, in the order of insertion |
| BufferFairness.LineIsFair | lab3/3/boundedbuffer.c:83-99 | strongly fair schedules exist: the first thread in line that can run does, and goes to the end |
| TurnTaking.StepKeepsInv | lab3/4/hellothread.c:11-23 | the invariant of the two loops is inductive, spurious wakeups included, and output is only appended |
| TurnTaking.StrictAlternation | lab3/4/hellothread.c:11-23 | in every run the output is child, parent, child, parent, ... |
| TurnTaking.WaitsOnOwnTurnBriefly | lab3/4/hellothread.c:36-46 | a thread waits on its own turn only while the other is between setting `turn` and signalling |
| TurnTaking.SomeoneCanGo | lab3/4/hellothread.c:36-46 | no deadlock in any run, although both directions share one condition variable |
| TurnTaking.StepLowersRank | lab3/4/hellothread.c:11-46 | each statement prints a line or lowers the number of statements before the next line |
| TurnTaking.NextLine | lab3/4/hellothread.c:11-46 | under every fair schedule another line is printed |
| TurnTaking.AlternatesForever | lab3/4/hellothread.c:11-46 | under every fair schedule any number of lines is printed, in alternation |
| TurnFairness.NextLine | lab3/4/hellothread.c:11-46 | with spurious wakeups, under strong fairness another line is always printed |
| TurnFairness.AlternatesForever | lab3/4/hellothread.c:11-46 | under every strongly fair schedule with any spurious wakeups any number of lines is printed, in alternation |
| TurnFairness.PairIsFair | lab3/4/hellothread.c:11-46 | such schedules exist: whoever runs gives precedence to the other |
| SharedCounter.StepKeepsInv | lab2/memorymapfile.c:47-59 | every read and write keeps the invariant of both loops and never lowers the counter |
| SharedCounter.ObservesInOrder | lab2/memorymapfile.c:47-59 | for every bound and interleaving the printed values are strictly increasing, within 0..bound and what is written; the reader exits exactly on printing the bound, and the parent finishes after it |
| SharedCounter.CounterNeverDecreases | lab2/memorymapfile.c:70-81 | between any two moments of a run the counter does not decrease |
| SharedCounter.BothFinish | lab2/memorymapfile.c:70-88 | under every fair schedule both loops finish and the last printed value is the bound |
| SharedCounter.EveryValueWritten | lab2/memorymapfile.c:70-81 | every value 0 to the bound is stored in turn: the word follows from the number of the writer's statements alone |
| SharedCounter.PrintsWhatItReads | lab2/memorymapfile.c:51-58 | the reader reads the word as it is, prints it unless it printed the same last, and stops at the bound |
| Tokenizers.ParseArgs | project1/myshell.c:25-46 | in place: the count is the number of words, the NULL-terminated pointers are the positions where words begin and read as the words from the mutated buffer, and exactly the first blank after each word is overwritten |
| Tokenizers.GetArgs | lab2/ch8/simplesh.c:8-21 | in place: same count, same pointers, same words, and every blank of the line is overwritten |
| Tokenizers.SkipWord | lab2/ch8/simplesh.c:14-16 | the inner loop stops at the end of the maximal run |
| Tokenizers.WordsAreRuns | lab2/ch8/simplesh.c:8-21 | the words are the maximal runs at the positions where a word begins (a non-blank at the start or after a blank) |
| Tokenizers.TokenizersAgree | project1/myshell.c:25-46 | the pointers that both contracts fix read as the same words from either buffer; the buffers are equal exactly when every blank directly follows a word |
| CommandLine.TrimBackground | project1/myshell.c:74-83 | in place: reports a final `&` and leaves the line without it and the spaces before it |
| CommandLine.TrimKeepsTokens | project1/myshell.c:79-82 | taking spaces off the end never changes the token list |
| CommandLine.CutAtBar | project1/myshell.c:85-89 | the NUL written over the first bar leaves the two sides of the bar as the two C strings |
| CommandLine.ExtractRedirections | project1/myshell.c:122-134 | the loop stays within the tokens, fills `args` in place with the arguments, and `infile` and `outfile` are the last operands of their operators or NULL |
| CommandLine.NoDanglingOperator | project1/myshell.c:124-133 | the scan stays within the tokens exactly when they end in an even number of operators |
| CommandLine.DanglingExample | project1/myshell.c:128 | the line `ls >` makes the scan step over the terminating NULL |
| CommandLine.DanglingIff | project1/myshell.c:124-133 | a line does so exactly if it has no pipe, is not `exit`, and its tokens end in an odd number of operators |
| CommandLine.TokensConserved | project1/myshell.c:122-134 | as a multiset the tokens are the arguments, all operands, and one operator for each operand |
| CommandLine.ArgsInOrder | project1/myshell.c:130 | the arguments are a subsequence of the tokens, in the same order |
| CommandLine.Interpret | project1/myshell.c:60-136 | one turn of the main loop, on the line in place, understands it as its meaning: nothing, exit, a pipe of two word lists, or a command with its files and background flag |
| CommandLine.RoundTrip | project1/myshell.c:68-136 | a pipe-free command rendered as a line comes back with the same arguments, files and flag exactly when the line is not `exit` and does not end in `&` by accident |
| Pipelines.PipeSides | project1/myshell.c:85-108 | every line with a bar is a pipe from the words before the first bar to the words behind it, a final mark apart |
| Pipelines.PipeRoundTrip | project1/myshell.c:85-108 | two commands typed with a bar between them, with or without the mark, come back as those two in that order exactly unless the second ends in `&` by accident |
| Pipelines.ExitIff | project1/myshell.c:68 | only the line `exit` ends the shell |
| Pipelines.NothingIff | project1/myshell.c:136 | a line without a bar does nothing exactly if its tokens are all operators and operands |
| Pipelines.LaterWins | project1/myshell.c:125-128 | a later redirection takes the place of an earlier one of its kind and of nothing else |
| Pipelines.TabSeparates | project1/myshell.c:31 | a tab separates words as a space does, a newline does not |
| SelectServer.Server.constructor | lab3/6/chat_server.c:39-41 | at first the set holds just the server socket, which is fd_max |
| SelectServer.Server.SendOthers | lab3/6/chat_server.c:82-86 | the inner loop writes to every client but the sender, once each |
| SelectServer.Server.ServeSocket | lab3/6/chat_server.c:55-89 | one position of the scan accepts, closes or passes a message on, as its visit says |
| SelectServer.Server.ServeRound | lab3/6/chat_server.c:54-90 | the scan, whose bound grows as it accepts, does the visits of all positions in order and keeps the invariant |
| SelectServer.ServerInvariant | lab3/6/chat_server.c:45-91 | after every run the server socket is watched, nothing watched is beyond fd_max, each client has a connection of its own, every connection was written exactly the broadcasts addressed to it, in order, none twice, and nobody its own |
| SelectServer.MessageReachesTheOthers | lab3/6/chat_server.c:75-86 | a message is written once to the connection of every client but its sender, and to no other connection |
| SelectServer.AcceptJoins | lab3/6/chat_server.c:58-66 | the accepted descriptor is watched, within fd_max, and has a new connection with nothing sent; all else is as before |
| SelectServer.HangupLeaves | lab3/6/chat_server.c:71-74 | a client that hangs up is no longer watched and has no connection; all else is as before |
| SelectServer.ClientsOfRun | lab3/6/chat_server.c:45-91 | over every run the clients are those accepted and not hung up since, computed from the rounds alone |
| SelectServer.RoundSays | lab3/6/chat_server.c:54-90 | a round broadcasts just what its ready clients have sent, in ascending order of their numbers |
| SelectServer.LabelledText | lab3/6/chat_server.c:78 | the label carries the sender's number, and behind it the text up to its first NUL |
| SelectServer.AnyRound | lab3/6/chat_server.c:50-69 | no round of ready watched sockets and a fresh accepted descriptor is excluded |
| SelectServer.AcceptedNotRead | lab3/6/chat_server.c:54-69 | from the accept on, no position visited in the same round is both ready and the accepted descriptor |
| SelectServer.SameOrderForAll | lab3/6/chat_server.c:45-91 | after every run any two connections, open or closed, saw the messages both received in one order, also if they had one descriptor after another |
| Delivery.CommonOrder | lab3/6/chat_server.c:82-86 | reading off either of two receivers of one log what the other also got gives the same sequence |
| Registry.Table.Add | project2/gui_server.c:69-71 | in place: the new client is listed last |
| Registry.Table.Remove | project2/gui_server.c:196-206 | in place: the list afterwards is what the loop as written makes of it, one shorter in any case |
| Registry.RemoveClient | project2/gui_server.c:198-205 | the loop as written, on the array: for a match at slot k that is not last the list becomes old[..k+1] + old[k+2..], otherwise it loses its last slot; a full array is included wherever the loop stays inside it |
| Registry.WrittenIsIntendedIff | project2/gui_server.c:198-205 | the loop removes the leaving client and nothing else exactly when that client is in the last slot; otherwise it keeps it and loses the one behind |
| Registry.NoMatchDropsLast | project2/gui_server.c:198-205 | without a match the last slot goes, whoever is in it |
| Registry.IntendedRemoves | project2/gui_server.c:196-206 | removal that shifts from the match on deletes just the leaving client and keeps the others, each once |
| Registry.IntendedKeepsOrder | project2/gui_server.c:196-206 | and it keeps the order of the others |
| Registry.RemoveShifting | project2/gui_server.c:198-205 | in place: the loop with the shift started at the match leaves exactly that list |
| Registry.IntendedStaysInOrder | project2/gui_server.c:196-206 | over every run with that removal, clients who stay keep their order |
| Registry.IntendedListsPresent | project2/gui_server.c:196-206 | over every run with that removal each connected client is listed exactly once, and nobody else |
| Registry.ExactIffLastInFirstOut | project2/gui_server.c:196-206 | over every run with the loop as written the list is right throughout exactly when clients leave in reverse order |
| Registry.FirstClientLeaves | project2/gui_server.c:200-201 | a run of two clients in which the wrong one is lost |
| UserFile.ReadWord | project2/gui_server.c:91 | one `%s` takes the next maximal run without white space, or meets the end of the file |
| UserFile.Users.ProcessAuth | project2/gui_server.c:81-119 | new file content and return code for every content, request and initial buffer |
| UserFile.AuthIgnoresBufferIff | project2/gui_server.c:91-117 | the outcome does not depend on the initial password buffer exactly if the request is a registration or the file is not just the id asked for |
| UserFile.FindIsPairedIff | project2/gui_server.c:91-96 | taking the words of the file two by two, the scan finds the word paired with the id exactly unless the id is an odd word at the end that begins no pair before; what is compared then |
| UserFile.LoginAsPairedIff | project2/gui_server.c:111-118 | a login is answered by the word paired with the id, or -2, exactly unless that is so (which word is paired is another matter: see `UserRuns`) |
| UserFile.PasswordMissing | project2/gui_server.c:105 | a registration without a password that leads to such a file, and the login that then succeeds with the content of the buffer |
| UserFile.ScanPrinted | project2/gui_server.c:105 | printing records and scanning the file gives the records back |
| UserFile.AuthOnUsers | project2/gui_server.c:91-118 | on a file of records a login of any kind and a registration with id and password look up, check and append records, and ids stay distinct |
| UserFile.FileHoldsRecords | project2/gui_server.c:81-119 | after every run whose registrations carry a password the file is the printed form of records with distinct ids, one for each id ever registered |
| UserFile.OnlyAppended | project2/gui_server.c:104-105 | after any requests the file begins with what it held after some of them |
| UserRuns.UnknownIff | project2/gui_server.c:115 | on any file a login returns -2 exactly if the id stands at no even position among the words |
| UserRuns.FileIsLines | project2/gui_server.c:104-105 | after every run, registrations without id or password included, the file is the lines written |
| UserRuns.ScanPrintedIff | project2/gui_server.c:91-105 | scanning such a file gives the lines back exactly if each has its id and password |
| UserRuns.RaggedParity | project2/gui_server.c:105 | after every run the number of words has the parity of the number of one-word lines written |
| UserRuns.NextAnswer | project2/gui_server.c:98-118 | on any file, what the next request with an id just registered returns |
| UserRuns.LoginNextIff | project2/gui_server.c:98-118 | on any file, the login that follows a registration succeeds exactly if the file had an even number of words or the id is its own password |
| UserRuns.LoginForeverIff | project2/gui_server.c:98-118 | on any file, the login works for ever after, whatever is requested, exactly if the number of words was even |
| UserRuns.RefusedForeverIff | project2/gui_server.c:98-103 | registering the id again is refused for ever after exactly if the number was even or the id is its own password |
| UserRuns.RegisterThenLogin | project2/gui_server.c:98-118 | over every run, once a registration has returned 0 with an even number of one-word lines before it, every later login with that password returns 0 and with any other -1, and registering the id again returns -1 |
| UserRuns.PromiseKeptIff | project2/gui_server.c:98-118 | over every run, the promise to all later logins is kept exactly if the run has written an even number of one-word lines before |
| UserRuns.LoginLost | project2/gui_server.c:98-118 | a registration without a password, after which the next user registers, cannot log in, and can register again |
| UserFile.UnknownId | project2/gui_server.c:115 | if registrations carry a password, a login returns -2 exactly when the id was never registered |
| ChatRooms.StepKeepsInv | project2/gui_server.c:182-227 | every step keeps list, socket numbers, connections and the broadcast under way consistent, unlocked accepting, closing, naming and joining and the removal loop as written included |
| ChatRooms.CountIsLive | project2/gui_server.c:70 | over every run the list is as long as there are live clients and holds no record twice |
| ChatRooms.AgreedDeliveryOrder | project2/gui_server.c:212-227 | over every run what was written to each connection is its copies of broadcasts in one log ordered by mutex acquisition, so any two connections agree on the order of the broadcasts both received |
| Broadcasts.SlotOnFields | project2/gui_server.c:216-223 | the turn of a slot on the fields of the records: without a name, or with another room than the sender's, nothing is written to anybody; with a name and the same room the message goes once to the connection with its socket number |
| Broadcasts.BroadcastStep | project2/gui_server.c:215-224 | during a broadcast no step of any thread changes the list or the sender, and a connection gets a copy exactly at the turn of a slot whose number is then its own, whose client is named and whose room is the sender's |
| Broadcasts.RoomBroadcast | project2/gui_server.c:212-227 | over a whole broadcast amid any unlocked steps the list does not change, and each connection gets one copy for each listed slot that at its turn holds its socket number and a client named and in the sender's room |
| ChatSockets.InRoomGetsOne | project2/gui_server.c:215-224 | a listed live client named and in the room throughout gets a copy, and just one if no other listed slot holds its socket number |
| ChatSockets.OutsideGetsNone | project2/gui_server.c:216 | a connection gets none if every slot with its number has, at every moment, no name or another room than the sender |
| ChatSockets.TwiceIffClash | project2/gui_server.c:215-224 | when a broadcast begins, some continuation writes to a connection twice exactly if two listed slots hold one number that is or can be opened, both clients being in the room or live |
| ChatSockets.TwoCopies | project2/gui_server.c:198-207 | a run from the start in which the removal loop and a reused number make a connection get two copies |
| ChatSockets.DistinctIffListsFresh | project2/gui_server.c:65-71 | over every run the listed numbers stay distinct exactly if main never lists a number still in the list |
| ChatSockets.LastLeavesFresh | project2/gui_server.c:196-206 | which holds if clients leave in the reverse of the order in which they were listed |
| ChatSockets.DistinctGetsOne | project2/gui_server.c:215-224 | with distinct numbers listed no connection gets a second copy of a broadcast |
| ChatHistory.RecordsFromRun | project2/gui_server.c:65-67 | over every run each record is what the actions made of it: unnamed and in room 0 when accepted, then with the name and the room taken last |
| ChatHistory.LiveFromRun | project2/gui_server.c:69-71 | over every run the live clients are those listed and not gone since, computed from the actions alone |
| ChatHistory.OutgoingText | project2/gui_server.c:217-222 | a file message goes out as it is, any other behind the sender's name in brackets, up to its first NUL |
| ChatHistory.SpeaksIff | project2/gui_server.c:180-193 | a live client can send exactly if it is named, the text is no command, and no message is under way |
| Calculator.Window.OnNumberClicked | lab3/9/my_calc_gtk.c:10-22 | the new display and flag, in the form that the flag announces |
| Calculator.Window.OnOperatorClicked | lab3/9/my_calc_gtk.c:25-35 | the new display and flag, in the form that the flag announces |
| Calculator.Window.OnClearClicked | lab3/9/my_calc_gtk.c:38-41 | the new display and flag, in the form that the flag announces |
| Calculator.Window.OnEqualsClicked | lab3/9/my_calc_gtk.c:44-66 | the new display and flag, in the form that the flag announces |
| Calculator.ParseShape | lab3/9/my_calc_gtk.c:51 | a display built of a numeral, an operator and digits is parsed into exactly those, and not at all while the digits are missing |
| Calculator.PressKeepsInv | lab3/9/my_calc_gtk.c:10-66 | each button keeps the form of the display that `has_operator` announces |
| Calculator.DisplayForm | lab3/9/my_calc_gtk.c:10-66 | over every button sequence the display is a numeral when the flag is 0, and numeral, operator, digits when it is 1 |
| Calculator.ChainShowsFold | lab3/9/my_calc_gtk.c:10-66 | typing n0 op1 n1 = op2 n2 = ... shows the decimal form of the left-to-right value |
| Calculator.EqualsShowsArithmetic | lab3/9/my_calc_gtk.c:53-58 | for a complete expression the number shown is the sum, difference, product or quotient of the two; a quotient by zero shows 0 |
| Calculator.EqualsWaits | lab3/9/my_calc_gtk.c:51 | an expression that is not complete stays as it is |
| Calculator.ClearShowsZero | lab3/9/my_calc_gtk.c:38-41 | C shows a lone zero and lets an operator follow |
| Calculator.SecondOperatorIgnored | lab3/9/my_calc_gtk.c:26 | a second operator is ignored |
| Text.ReadShowNat | lab3/9/my_calc_gtk.c:61 | reading a printed number gives the number |
| Text.ScanShow | lab3/9/my_calc_gtk.c:51 | scanning a printed number, with anything but a digit behind it, gives the number and stops at its end |
| Text.ScanSigned | lab3/7/test_add.c:33 | blanks in front and a sign are taken as `atoi` takes them |
| Text.BlankCodes | project1/myshell.c:31 | the blanks of the shells are codes 32 and 9, those of the scanf family 32 and 9 to 13 |
| Text.UsualDigits | lab3/9/my_calc_gtk.c:61 | the digits are the usual ones, to the base ten |
| Cgi.SplitUndoes | lab3/7/cgiserver.c:86-87 | splitting at the first empty line undoes header + CRLFCRLF + body exactly when the header does not hold or run into an empty line |
| Cgi.CutQuery | lab3/7/cgiserver.c:110-113 | overwriting the question mark in the buffer leaves the query behind it, and from the second character on the program: what is before the mark, or, if the mark comes first, the query itself |
| Cgi.InputAsPromisedIff | lab3/7/cgiserver.c:103-118 | the content length is that of the body, and the child can read that many characters, namely the body, exactly if the method is POST or the body is empty |
| Cgi.BodyWithGet | lab3/7/cgiserver.c:104-118 | a GET with a body: its length is announced and none of it can be read |
| Cgi.HandleRequest | lab3/7/cgiserver.c:82-136 | for every request text: the file served, or the program run with its environment and input |
| Cgi.PlainFile | lab3/7/cgiserver.c:89-125 | a target without ".cgi" names a file below the current directory, and "/" the page index.html there |
| Cgi.TestAddMain | lab3/7/test_add.c:15-37 | for every environment and input: no report, or the two numbers and their sum, and that only for GET and POST |
| Cgi.AddForm | lab3/7/test_add.c:29-36 | from the form `a=x&b=y` exactly x, y and x+y are reported, for integers without bound (atoi agrees on those of type int) |
| Cgi.ReportsIff | lab3/7/test_add.c:29 | a report is made exactly if both names stand somewhere in the query |
| Cgi.AddReads | lab3/7/test_add.c:31-36 | it reads the numbers behind their first places |
| Cgi.PostLineShape | lab3/7/test_add.c:22 | `fgets` takes the input up to its first newline and at most 1023 characters |
| Cgi.PostReadsFirstLine | lab3/7/test_add.c:21-25 | with POST only the first line of the input is looked at |
| Cgi.SecondLineIgnored | lab3/7/test_add.c:22 | a POST with one name on a second line gives no report |
| Cgi.QueryByMethod | lab3/7/test_add.c:16-26 | with GET the query counts and the input does not; without input, or with another method, there is no report |
| Cgi.GetAdds | lab3/7/cgiserver.c:110-113 | a GET text without NUL with the form as query is handed over unchanged and answered with x+y |
| Cgi.PostAdds | lab3/7/cgiserver.c:103-118 | a POST text without NUL with the form as body, which always fits, is handed over unchanged, with its length, and answered with x+y |
| LineLoops.LineShape | project1/commands.c:257 | a line has no newline but at its end, and only the last line of a file may lack one |
| LineLoops.ChunksMakeFile | project1/commands.c:232 | the pieces that `fgets` reads make up the file, for every buffer size from 2 |
| LineLoops.PieceShape | project1/commands.c:232 | a piece ends at the first newline, or at the end of the file, or else fills the buffer but for one place |
| LineLoops.StringsWhole | project1/commands.c:234 | the C strings at the front of the pieces make up the whole exactly when there is no NUL in it |
| LineLoops.ChunksAreLinesIff | project1/commands.c:257 | the pieces are the lines exactly when every line fits the buffer |
| LineLoops.GrepMissesLongLine | project1/commands.c:257-261 | a line that matches and is longer than the buffer, of which no piece matches |
| LineLoops.CatLoop | project1/commands.c:230-235 | without -n the output is the file exactly when there is no NUL in it; with -n each piece has its number before it |
| LineLoops.NumberedListing | project1/commands.c:231-235 | with -n the pieces are numbered from 1, each behind its number |
| LineLoops.PaddedForm | project1/commands.c:233 | a number is set right in six columns with two spaces behind it |
| LineLoops.CatStopsAtNul | project1/commands.c:234 | a file of one NUL is not copied, whatever the buffer |
| LineLoops.ScanCatArgs | project1/commands.c:220-223 | -n anywhere sets the flag, and the last other argument is the file |
| LineLoops.ScanGrepArgs | project1/commands.c:243-248 | the flags count anywhere, and the first two other arguments are pattern and file |
| LineLoops.FlagLetters | project1/commands.c:244-245 | the flags are "-n" and "-i" |
| LineLoops.GrepLoop | project1/commands.c:257-267 | the output is the report over all pieces |
| LineLoops.Grep | project1/commands.c:239-269 | usage, open error, or the report, for every argument list |
| LineLoops.HitsExact | project1/commands.c:259-261 | the hits are exactly the matching pieces, once each and in order |
| LineLoops.ReportPrintsHits | project1/commands.c:263-266 | grep prints the hits, each with its own number, and nothing else |
| LineLoops.FlagAnywhere | project1/commands.c:243-248 | -n or -i inserted at any position behind the command name is set, and changes nothing else |
| LineLoops.MatchesIff | project1/commands.c:260-261 | a match is an occurrence of the pattern, character by character, with -i up to the case of ASCII letters |
| LineLoops.GrepPrintsMatchingLines | project1/commands.c:239-269 | on a file without NUL whose lines fit, exactly the lines in which the pattern stands somewhere (with -i up to the case of ASCII letters) are printed, in order and correctly numbered |

## Left out

- Sockets, `fork`, `exec`, signals, readline and history, terminal settings, `mmap` and file opening: system calls. What reads, accepts and other threads do is a parameter or a choice of the schedule; one read is one message, and writes complete.
- Error returns of the pthread calls, of `read` and of `accept`: status 0 and successful calls only.
- Overflow of fixed-size buffers and arrays: sizes are preconditions or sequences without bound.
- BufferProgress.ItemsFlowForever: schedules without spurious wakeups, since weak fairness does not suffice with them; `BufferFairness` has the result with them under strong fairness. No promise is made to a single thread, since POSIX does not fix which waiter gets the mutex.
- TurnTaking.AlternatesForever: schedules without spurious wakeups; `TurnFairness` has the result with them.
- UserRuns.PromiseKeptIff: a part that a request lacks is taken to be empty; if the program finds an old token in that buffer, the request is one that carries it.
- SharedCounter.BothFinish: the parent's progress lines and pauses are left out, and a read or write of the word is one step.
- CommandLine.ExtractRedirections: the text and the token pointers are read as values, since the loop only fills `args` in place.
- CommandLine.Interpret: each pipe child tokenizes its own copy of its side, and no line on which the redirection scan would step over its end is taken.
- Registry.RemoveClient: a full array with a match before the last slot, because the written shift then reads past the end of the array.
- Unique names among logged-in clients of `project2/gui_server.c`: the check (lines 138-145) and the naming (line 159) are separate steps, so it is not promised.
- ChatRooms.StepKeepsInv: the record of a client that the removal loop left in the list stays as it was, although the program frees it; its number is reused by the kernel for other connections only, not for files; a name is written in one step, and a freshly allocated name is empty.
- UserFile.Users.ProcessAuth: the function runs under one mutex, so requests take effect one after another; the comparison that follows the unlock (lines 113-117) uses only the thread's own buffers.
- SelectServer.ServerInvariant: the timeout of `select` changes nothing and is left out.
- Calculator.Window.OnEqualsClicked: operands a double holds exactly, whole quotients and results in the range of `int`; `%.2f` and floating-point precision are not modelled.
- Cgi.HandleRequest: what the programs print is reduced to the numbers reported; the file that a static request names is not read.
- LineLoops.GrepLoop: `strcasestr` folds ASCII letters only.
- The other commands of the shell (`ls`, `cp`, `mv`, `rm`, `ln`, `cd`, `pwd`), the GTK chat client, the remaining demonstrations of system calls and the exercises around C library search functions: plumbing or easy claims only.
