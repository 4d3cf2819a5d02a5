# Verification of the RTX kernel

A Dafny model of the `rtx/src` real-time executive: a single-processor, priority-preemptive kernel with a fixed block
pool, mailboxes and delayed messages, the ring-buffer lists and queues it is built on, the interrupt-driven UART with its
two system processes KCD and CRT, the wall clock process, and integer printing.

`dafny verify dfyconfig.toml` checks everything.

## How it is organised

| file | what it holds |
|---|---|
| `Constants.dfy`, `Integers.dfy`, `Sequences.dfy` | process ids, sizes, priorities; 32-bit integers; facts about sequences |
| `LinearList.dfy` | the generic ring-buffer list, and arrays of them |
| `PriorityQueue.dfy` | process queues by priority on such arrays |
| `MessageQueue.dfy` | the sorted queue linked through the envelopes |
| `KernelState.dfy` | every kernel call and interrupt as a function on the kernel's globals |
| `Scheduling.dfy`, `KernelCalls.dfy` | the scheduling invariant, and that every call keeps it |
| `Turns.dfy`, `RoundRobin.dfy` | how long an equal waits for its turn: on lists of pids, and on the kernel |
| `MessageHistory.dfy`, `KernelRuns.dfy` | the ledger of envelopes and the history of messages; whole runs and the main theorems |
| `PriorityOrder.dfy`, `Overtaking.dfy` | which process runs, and in which order those who wait are served, over whole runs |
| `FirstCalls.dfy`, `Scenarios.dfy` | what the system processes do first; runs from start-up that show what can go wrong |
| `Boot.dfy`, `Timer.dfy`, `Kernel.dfy` | start-up; the tick counters; the kernel as a class over the ring buffers and linked queue, call by call |
| `UartOutput.dfy`, `Crt.dfy` | output: transmit ring, interrupt, CRT |
| `UartInput.dfy`, `Kcd.dfy` | input: receive ring, interrupt, line assembly and dispatch |
| `Uart.dfy` | the UART driver as a class over two rings |
| `MailEffects.dfy`, `Mailboxes.dfy`, `Machine.dfy` | kernel, UART, KCD and CRT together, sharing mailboxes and notifications |
| `MachineRuns.dfy` | whole runs of these: from what processes send to the wire, from the keyboard to the processes |
| `WallClock.dfy`, `Printf.dfy` | the wall clock process; printing and scanning integers |

Each kernel call exists twice: as a function in `KernelState.dfy`, about which the theorems are proved, and as a method
of the class in `Kernel.dfy`, which works on the real lists and is proved to do what the function says. A call that
blocks is one round of the loop around `k_poll`; the suspended process makes the next round when it runs again.

## What is assumed

- Kernel calls and interrupt handlers are atomic: supervisor calls and interrupts run at one priority.
- The null process makes no kernel call; its body is an empty loop (`rtx/src/k_process.c:59-63`).
- A process sends, releases or writes only envelopes it holds. The code checks only that a released block is not free.
- In the runs of the kernel alone KCD and CRT give the UART process its notification back (event `GiveBack`) only while
  they hold it, the one by asking for the next line end, the other by clearing the first body byte. In `Machine.dfy` this
  is proved.
- What a display message or registration says stays as it was sent until CRT or KCD has dealt with it.
- A pointer to an envelope is its index, NULL is -1; `k_release_memory_block` alone works with addresses.
- Integers are unbounded except the tick counter, delays and expiries, block addresses, and everything in `Printf.dfy`:
  these are 32 bits wide and wrap around, signed ones as in two's complement.

## Where the code differs from what it says

- `LL_BACK` and `LL_POP_BACK` read the slot after the last element (`rtx/src/list.c:31-34`, `rtx/src/list.c:45-51`); it
  is the last element's only at capacity one. Nothing in the kernel uses the result.
- `a2i` lets a digit equal to the base pass (`rtx/src/printf.c:115`), so in decimal `a` and `A` count as the digit ten. It
  does not notice overflow; a numeral above INT_MAX comes back wrapped around.
- A delayed message is queued by the 32-bit sum of delay and clock (`rtx/src/k_process.c:479`). If the sum overflows, the
  message is delivered on the next tick, ahead of all others; a delay of INT_MAX at tick 1 does it.
- With `HAS_TIMESLICING` ninety-nine of a hundred ticks end without a preemption check (`rtx/src/k_process.c:326-337`), so a
  delivery can leave a process of better priority ready while another runs: exactly when such a process waits for mail
  and a message for it is due on such a tick.
- The delayed queue ascends by expiry (`rtx/src/message_queue.c:45-46`); the comment at `rtx/src/k_process.c:481` says
  the opposite.
- KCD and CRT overtake everybody else in the highest list (`rtx/src/priority_queue.c:34-40`), but the eager check and
  `release_processor` also make them give way to an equal. So with `HAS_TIMESLICING` one of them can be ready, at HIGHEST,
  while another process of that priority runs. As shipped neither calls `release_processor`.
- FIFO order among equals (`rtx/src/k_process.c:137-155`) fails at HIGHEST when KCD or CRT is among them: one of them takes
  every second turn, and both together take all.
- An input character that finds the receive ring full is dropped (`rtx/src/uart_irq.c:50-53`). If that happens while no
  line end is buffered, KCD is never told to read, and the input stays jammed for ever; a line of 200 characters does it.

## Model

| member | source | states |
|---|---|---|
| LinearLists.LinearList.PushFront | rtx/src/list.c:13-18 | puts the element before the contents, at any wrap position of the ring |
| LinearLists.LinearList.PushBack | rtx/src/list.c:20-24 | puts the element behind the contents |
| LinearLists.LinearList.PopFront | rtx/src/list.c:36-43 | returns and takes off the first element |
| LinearLists.LinearList.Remove | rtx/src/list.h:121-129 | compaction in place leaves the contents without the value, the rest in order |
| LinearLists.BackIsLastOnlyAtCapacityOne | rtx/src/list.c:31-51 | what LL_BACK and LL_POP_BACK read is the last element for all contents if and only if the capacity is one; a full list yields its front, another list a slot outside |
| PriorityQueues.PeekFront | rtx/src/priority_queue.c:30-50 | the two scans over the rings find the pid and priority that `Peek` defines |
| PriorityQueues.PopFirstProcess | rtx/src/priority_queue.c:52-63 | returns the peeked pid and leaves the lists of `PopFirst` |
| PriorityQueues.ChangeProcessPriority | rtx/src/priority_queue.c:73-84 | a queued pid leaves its list, which keeps its order, and stands at the end of the other; no other list changes; reports whether it was there |
| PriorityQueues.CopyQueue | rtx/src/priority_queue.c:113-126 | appends each source list behind the target's, in order, and empties the source |
| PriorityQueues.PeekServesMostUrgent | rtx/src/priority_queue.c:30-50 | with coherent queues peek_front serves a process of least urgency value, reports that value, and has only less urgent ones before it in its list |
| PriorityQueues.PopTakesThePeeked | rtx/src/priority_queue.c:52-63 | with coherent queues pop_first_process takes out exactly the peeked pid, once, and keeps everything else in order |
| PriorityQueues.AppendCoherent | rtx/src/priority_queue.c:113-126 | merging two coherent disjoint queues gives a coherent one, and no list exceeds the number of processes |
| MessageQueues.MessageQueue.Enqueue | rtx/src/message_queue.c:44-52 | the pointer-to-pointer walk ends, splices in exactly the new envelope before the first later expiry, and leaves the chain linked and all other envelopes untouched |
| MessageQueues.MessageQueue.Dequeue | rtx/src/message_queue.c:24-41 | takes off the front envelope if and only if it is due, and clears its link |
| MessageQueues.InsertionIsSortedAndStable | rtx/src/message_queue.c:44-52 | insertion keeps the queue ascending and goes behind exactly those with no later expiry |
| MessageQueues.EqualKeysAppend | rtx/src/crt.c:16-18 | with equal keys insertion is append: CRT's list is a FIFO |
| KernelState.OnlyBlockAddressesPass | rtx/src/k_memory.c:114-128 | with 32-bit wrap-around, exactly the start addresses of pool blocks pass the checks |
| Scheduling.ReleaseDispatches | rtx/src/k_process.c:137-246 | k_release_processor keeps the running process or hands over to the most urgent ready one, which exists, differs from the old one and is NEW or RDY |
| Scheduling.ReleaseKeepsInvariant | rtx/src/k_process.c:204-246 | it keeps the coherence of states and queues and leaves a process of best priority running |
| Scheduling.StrongOrderAfterRelease | rtx/src/k_process.c:137-155 | the order that counts KCD and CRT at HIGHEST as above all survives it if and only if not one of those gives way to another process at HIGHEST |
| Scheduling.CheckKeepsInvariant | rtx/src/k_process.c:297-320 | the preemption check keeps coherence, leaves the most urgent process running, and nobody waiting for memory while a block is free |
| Scheduling.CheckPreemptsExactlyWhenDue | rtx/src/k_process.c:297-320 | it switches if and only if somebody ready, after the wake-ups, is more urgent than the running one's priority (for the eager form: at least as urgent), and then to the most urgent |
| RoundRobin.BoundedWaiting | rtx/src/k_process.c:137-246 | with KCD and CRT out of the way, the process at index i of the ready list at running's priority runs after exactly i+1 calls of release_processor |
| RoundRobin.WaitingTime | rtx/src/k_process.c:137-246 | in all cases: after how many calls the process at index i first runs, and that it never does while both KCD and CRT take turns at HIGHEST and it is neither |
| RoundRobin.FifoExactly | rtx/src/priority_queue.c:30-50 | it first runs after i+1 calls if and only if KCD and CRT are not among the processes at HIGHEST, or stand where they would be served anyway |
| RoundRobin.FullRound | rtx/src/k_process.c:137-246 | a full round of calls restores the running process and the list |
| KernelCalls.SetPriorityCall | rtx/src/k_process.c:248-275 | k_set_process_priority keeps all invariants for every pid and priority; exactly the allowed pairs are accepted, and change this one priority; all others change nothing |
| KernelCalls.RequestCall | rtx/src/k_memory.c:98-112 | a round of k_request_memory_block keeps them |
| KernelCalls.ReleaseBlockCall | rtx/src/k_memory.c:139-152 | k_release_memory_block keeps them, so nobody waits for memory while a block is free; exactly the pool blocks that are not free are accepted, others change nothing |
| KernelCalls.SendCall | rtx/src/k_process.c:371-417 | k_send_message keeps them, so a receiver blocked on an empty mailbox becomes ready; exactly the sends with an envelope and a valid receiver are accepted and put the envelope last in its mailbox under the true sender, others change nothing |
| KernelCalls.DelayedSendCall | rtx/src/k_process.c:464-485 | k_delayed_send keeps them; the same sends are accepted, and with a delay go to the delayed queue and no mailbox |
| KernelCalls.DelayedSendQueues | rtx/src/k_process.c:475-482 | the envelope carries sender, receiver and the wrapped expiry, and is queued behind all that expire no later and before all others |
| KernelCalls.ReceiveCall | rtx/src/k_process.c:419-448 | a round of k_receive_message keeps them; only processes with an empty mailbox are blocked there |
| KernelCalls.TimerCall | rtx/src/timer.c:113-131 | the timer interrupt keeps them, with the plain check, the eager one or none |
| KernelCalls.UartCall | rtx/src/uart_irq.c:282-321 | a UART interrupt keeps them |
| MessageHistory.FirstReading | rtx/src/message_queue.c:31-36 | a message is due on the first tick at which the clock, read as an int, has reached its expiry, wrap-around included |
| MessageHistory.DelayIsKeptInRange | rtx/src/k_process.c:479 | a positive delay is kept if and only if clock plus delay does not overflow (or the clock is about to); otherwise the message is due on the next tick |
| MessageHistory.LongestDelayArrivesAtOnce | rtx/src/k_process.c:479 | a delay of INT_MAX at tick 1 is due at tick 2, ahead of all messages sent later and due then |
| MessageHistory.DeliveriesKeep | rtx/src/k_process.c:487-497 | draining the delayed queue on a tick delivers exactly the due messages, in order, with their true senders |
| Boot.BootEstablishesInvariant | rtx/src/k_process.c:77-131 | from the process table, start-up and the first dispatch establish the invariant; KCD or CRT runs first |
| KernelRuns.RunsKeepInvariant | rtx/src/k_process.c:137-497 | every state of every run satisfies the scheduling, ledger and message invariants |
| KernelRuns.QueuesMatchStates | rtx/src/priority_queue.c:9-126 | on every run the ready and blocked lists hold exactly the processes whose state says so, each once, in the list of its current priority |
| PriorityOrder.SchedulingIsSafe | rtx/src/k_process.c:137-432 | on every run: one process is RUN and it is running; it has the best priority unless ticks went without a check, and is the most urgent unless, besides, there were eager checks or KCD or CRT released the processor; memory waiters only while the pool is empty; a process back from its wait for mail has mail; the null process runs or is ready |
| PriorityOrder.DeliveriesWake | rtx/src/k_process.c:487-497 | the deliveries of a tick make ready exactly those who wait for mail and have a message in the delayed queue whose expiry is reached |
| PriorityOrder.BestPriorityRuns | rtx/src/k_process.c:297-337 | on every run the best priority runs in all states if and only if no tick goes without the check while the delayed queue holds, due on that tick, a message for a process of better priority than the running one that waits for mail |
| PriorityOrder.MostUrgentRuns | rtx/src/k_process.c:137-155 | on every run the most urgent process runs in all states if and only if KCD or CRT at HIGHEST never releases the processor while others of that priority are ready and neither of the two is; no eager check finds the same, counting as ready those whose message is due on that tick; and no unchecked tick comes when a message for a more urgent process is due |
| PriorityOrder.EagerCheckIsRelease | rtx/src/k_process.c:297-320 | the eager check is the wake-up followed by k_release_processor |
| FirstCalls.SystemProcessesSettle | rtx/src/sys_proc.c:49-58 | from start-up, KCD and CRT wait for mail, CLOCK and SET_PRIO register with KCD and wait too, each when its turn comes; then a test process runs |
| Scenarios.StrongOrderCanBeLost | rtx/src/k_process.c:326-337 | a run from start-up: KCD waits, and the eager check of the hundredth tick takes the processor from CRT for a process that is only as important |
| Scenarios.OrderCanBeLost | rtx/src/k_process.c:326-337 | a run from start-up, with time slicing: a test process of raised priority sleeps for a tick, which leaves it ready while a process of worse priority runs |
| Scenarios.LongestDelayEndsAtOnce | rtx/src/k_process.c:479 | a run from start-up on which a test process sends with a delay of INT_MAX at tick 1 and the message is delivered at tick 2 |
| PriorityOrder.MostUrgentWithoutSlicing | rtx/src/timer.c:124-131 | in the build without time slicing, as shipped: on every run the best priority runs in all states, and the most urgent process too unless KCD or CRT released the processor |
| PriorityOrder.SlicingRestoresOrder | rtx/src/k_process.c:326-337 | in the build with it: after every hundredth tick since start-up the best priority runs again, whatever happened before; the ticks in between make no other process run |
| Overtaking.NeverOvertaken | rtx/src/priority_queue.c:9-28 | on every run a process that stays in a ready list or in a list of memory waiters stays ahead of all who stood behind it or came later |
| Overtaking.NewcomersGoLast | rtx/src/k_process.c:248-275 | whoever comes to such a list, by a change of its priority or otherwise, goes behind those who were there |
| Overtaking.MemoryInOrder | rtx/src/k_process.c:297-320 | those who become ready because memory is free do so in the order in which they waited |
| FirstCalls.StartUp | rtx/src/k_process.c:63-131 | before the first dispatch every process is NEW with its priority, in table order in the ready list of its level, mailboxes are empty, and all blocks are free, the last one first |
| KernelRuns.UartHoldsWhatItMaySend | rtx/src/uart_irq.c:57-75 | on every run the two flags the UART interrupt goes by are up exactly while the UART process holds the notification |
| KernelRuns.RequestTakesAFreeBlock | rtx/src/k_memory.c:98-112 | a request ends with a block that was free and now is the caller's, or with the caller blocked and no block moved |
| KernelRuns.EnvelopesAreConserved | rtx/src/k_process.c:53 | on every run each envelope is in exactly one place and there once; no mailbox or free list is full when something comes to it |
| KernelRuns.DelayedMessageArrivesOnTime | rtx/src/k_process.c:464-497 | on every run, for every int as delay, the message is in its receiver's mailbox history exactly from its due tick on, once, and in nobody else's; that tick is the sending tick plus the delay if and only if the 32-bit sum with the clock does not overflow (or the clock is about to), else the next |
| KernelRuns.MailIsExactlyWhatWasSent | rtx/src/k_process.c:371-448 | on every run what a process received followed by its mailbox is the list of all messages sent to it and due, in order of due tick, 32-bit expiry and sending, with true senders |
| Kernels.Kernel.RtxInit | rtx/src/k_rtx_init.c:18-33 | power-on to first process, on the real lists |
| Kernels.Kernel.ReleaseProcessor | rtx/src/k_process.c:204-246 | does what its function says; the C assertions hold and no queue overflows |
| Kernels.Kernel.CheckPreemption | rtx/src/k_process.c:297-320 | does what its function says |
| Kernels.Kernel.CheckPreemptionEager | rtx/src/k_process.c:326-337 | checks eagerly every hundredth time and does nothing else otherwise |
| Kernels.Kernel.SetProcessPriority | rtx/src/k_process.c:248-275 | state and result code are those of its function |
| Kernels.Kernel.RequestMemoryBlock | rtx/src/k_memory.c:98-112 | state and result are those of its function |
| Kernels.Kernel.ReleaseMemoryBlock | rtx/src/k_memory.c:114-152 | state and result code are those of its function, for every address; the free list has room |
| Kernels.Kernel.SendMessageHelper | rtx/src/k_process.c:371-389 | does what its function says; the mailbox has room because envelopes are distinct |
| Kernels.Kernel.ReceiveMessage | rtx/src/k_process.c:419-448 | state, envelope and sender are those of its function |
| Kernels.Kernel.DelayedSend | rtx/src/k_process.c:464-485 | state and result code are those of its function, with the expiry computed from the unsigned tick counter |
| Kernels.Kernel.CheckDelayedMessages | rtx/src/k_process.c:487-497 | the loop delivers what `DeliverDue` says; no mailbox overflows |
| Kernels.Kernel.TimerIrq | rtx/src/timer.c:113-131 | counts, delivers and ends as its function says; without time slicing the most urgent process runs then; with it exactly the ticks divisible by a hundred do the eager check, the others only deliver |
| UartOutputs.StepKeepsProtocol | rtx/src/uart_irq.c:65-92 | a non-empty transmit ring implies the interrupt is on; an armed notification implies that and that none is under way; at most one is; CRT asleep with output implies it is armed or in the mailbox |
| UartOutputs.WireShowsAllMessages | rtx/src/crt.c:9-50 | on every run CRT's characters on the wire are a beginning of all messages sent to it in order of arrival, line ends expanded, and all of them when nothing is left to do |
| UartOutputs.CrtIsWokenUp | rtx/src/uart_irq.c:65-76 | on every run, CRT asleep with output has its notification, or is sent it as soon as more transmitter interrupts have come than characters were buffered then or added since, whatever happens in between |
| UartOutputs.WireShowsWhatIsTyped | rtx/src/uart_irq.c:290-302 | on every run the echoed characters on the wire and in the ring are the characters received, in order, each carriage return with a line feed, but for what found the ring full |
| UartOutputs.TransmitterFlagIsRight | rtx/src/uart_irq.c:79-92 | if the transmitter interrupts once for each character written to it, uart_thre is up exactly while it is at work on one, so nothing waits for an idle transmitter and nothing is written to a busy one |
| UartOutputs.ExpandAddsReturns | rtx/src/uart_irq.c:121-123 | expansion puts a CR before every LF and changes nothing else |
| UartOutputs.PrintingEnds | rtx/src/crt.c:31-48 | the printing loop ends with all displayed, or above the threshold and sure to be woken |
| UartInputs.StepKeepsProtocol | rtx/src/uart_irq.c:49-109 | the input notification is armed, in the mailbox or being served, exactly one of these; while armed no line end is buffered |
| UartInputs.CommandsAreTheLines | rtx/src/kcd.c:64-83 | on every run, with or without debugging keys, the commands are the lines of the characters read, cut at carriage returns, without line feeds, cut off at the maximal length; a buffered line end is never forgotten |
| UartInputs.TypedIsAccepted | rtx/src/uart_irq.c:290-302 | on every run what KCD has read and what is buffered are all characters received, in order, without delete, backspace and, in the debugging build, the three hot keys, and without those that came while 200 were buffered |
| UartInputs.ProcessKeyboardInput | rtx/src/kcd.c:40-57 | the loop with the bit mask serves the pids of `Recipients` |
| UartInputs.RecipientsAreTheMatching | rtx/src/kcd.c:40-57 | exactly the processes that registered a prefix of the command get it, each once |
| UartInputs.LineEndWakesUnlessJammed | rtx/src/uart_irq.c:49-62 | a received line end leads to a wake-up of KCD if and only if the ring is not full with the notification armed |
| UartInputs.JammedForEver | rtx/src/uart_irq.c:49-53 | once it is, no character is accepted or read again on any run |
| UartInputs.LongLineJams | rtx/src/uart_irq.c:49-62 | a line of 200 characters gets there |
| UartInputs.DrainedReadsAll | rtx/src/kcd.c:64-83 | one call of the drain loop passes on every buffered line and re-arms the notification |
| Kcds.Kcd.HandleKeyboardInput | rtx/src/kcd.c:59-83 | the loop over the ring and the line buffer does what `Drained` says |
| Crts.Crt.Display | rtx/src/crt.c:16-18 | a message to display goes to the end of the linked list |
| Crts.Crt.Print | rtx/src/crt.c:31-48 | the loop over linked list, offset and transmitter does what `PrintingDone` says and hands back exactly the displayed envelopes, in order |
| Uarts.Uart.PutcNonblocking | rtx/src/uart_irq.c:79-92 | on the ring does what its function says; never pops an empty ring |
| Uarts.Uart.Putc | rtx/src/uart_irq.c:112-129 | state and result are those of its function |
| Uarts.Uart.ThreIrq | rtx/src/uart_irq.c:303-313 | state and notification are those of its function |
| Uarts.Uart.RxIrq | rtx/src/uart_irq.c:290-302 | an ordinary character is echoed and buffered if there is room; delete, backspace and hot keys change nothing; echo and notification are those of the two models |
| Uarts.Uart.Getc | rtx/src/uart_irq.c:98-109 | hands out the first character or arms the notification |
| Machines.RunsKeepJoined | rtx/src/uart_irq.c:49-92 | on every run of kernel, UART, KCD and CRT together, the mailboxes of KCD and CRT are the kernel's, their protocols hold, and each notification is with the UART process, in its receiver's mailbox or with its receiver |
| Machines.KernelDoesItsPart | rtx/src/uart_irq.c:57-75 | whenever the UART notifies and whenever KCD or CRT answers, the notification message is where it must be for that |
| MachineRuns.WireShowsWhatWasSent | rtx/src/crt.c:9-50 | on every such run CRT's characters on the wire are a beginning of the texts of all display messages that processes sent to CRT and that are due, in order of delivery, line ends expanded, and all of them when mailbox, display list and transmit ring are empty |
| MachineRuns.BodiesAreWhatWasSent | rtx/src/k_process.c:391-417 | what a message says is what its sender gave it, for ever |
| MachineRuns.CommandsAreTyped | rtx/src/kcd.c:59-83 | on every such run the commands are the lines of what KCD has read, which with what is buffered is all that was typed, as above |
| MachineRuns.CommandsAreSent | rtx/src/kcd.c:40-57 | on every such run the messages KCD has sent, followed by those it is about to send, are each recognised command, in order, once to each of its recipients |
| MachineRuns.EachRecipientOnce | rtx/src/kcd.c:40-57 | the messages with a certain line that KCD has sent to a process, and those it is about to send, are as many as the commands with that line that are for it |
| MachineRuns.CommandsByRegistrations | rtx/src/kcd.c:40-83 | on every such run the recipients of a command are the processes with a matching entry among the registrations KCD had received when it recognised it |
| MachineRuns.EntriesAreRegistrations | rtx/src/kcd.c:96-119 | on every such run KCD's entries are the registrations sent to it that it received, in order, with their true senders |
| WallClocks.ClockIsRight | rtx/src/sys_proc.c:83-194 | on every run the clock shows the time last set plus the live ticks modulo a day, and has one live tick message while it runs and none while stopped |
| WallClocks.SetCommands | rtx/src/sys_proc.c:114-201 | exactly %WR and %WS with a valid time in display format set the clock, to that time |
| WallClocks.StopCommand | rtx/src/sys_proc.c:147-151 | exactly %WT stops the clock |
| WallClocks.StoppedUntilSet | rtx/src/sys_proc.c:83-151 | on every run, from %WT until a command sets the clock no tick under way is live, the time stays and nothing is displayed |
| WallClocks.RunningOnceSet | rtx/src/sys_proc.c:83-194 | on every run, from %WR or a valid %WS until the next command it obeys the clock has one live tick, and shows the time set plus one second for each it displayed since |
| WallClocks.TwoDigitsArePrinted | rtx/src/sys_proc.c:106 | two digits of a time are what %02u prints |
| WallClocks.WallClock.Tick | rtx/src/sys_proc.c:83-112 | updates the globals, displays and re-sends as its function says |
| WallClocks.WallClock.Message | rtx/src/sys_proc.c:128-202 | obeys the command as `Parse` reads it |
| Printf.Ui2a | rtx/src/printf.c:71-87 | for every 32-bit number the divisor stays in 32 bits and the buffer holds the canonical numeral and a NUL |
| Printf.NumeralDenotes | rtx/src/printf.c:71-87 | in every base from 2 to 16 and either case, the digits of the numeral, read by a2d, give back the number |
| Printf.NumeralLooks | rtx/src/printf.c:71-87 | no leading zero unless the number is 0; letters in the case asked for |
| Printf.DigitTable | rtx/src/printf.c:82 | the digits are 0 to 9 and a to f, or A to F |
| Printf.DecimalDenotes | rtx/src/printf.c:89-96 | a minus sign exactly if the number is negative, then the digits of its magnitude |
| Printf.I2a | rtx/src/printf.c:89-96 | every 32-bit number, INT_MIN included, comes out in decimal and fits 12 bytes with sign and NUL |
| Printf.Putchw | rtx/src/printf.c:124-135 | the string comes last, after as many zeros or blanks as the width needs |
| Printf.A2i | rtx/src/printf.c:109-122 | reads the longest accepted prefix and stops behind the character after it, with its value wrapped to an int; an intermediate result overflows if and only if the value exceeds INT_MAX |
| Printf.PrintThenScan | rtx/src/printf.c:98-122 | for every number up to INT_MAX, scanning its decimal numeral stops right behind it with its value if and only if neither a digit nor a or A follows |
| Printf.LargeNumeralsWrap | rtx/src/printf.c:113-116 | a scanned numeral has its value if and only if that is at most INT_MAX |

## Left out

- Hardware, assembly, stacks and exception frames: a context switch is the change of `running` and of process states.
- Interrupts between the instructions of a kernel call; CRT and KCD are modelled with interrupts between all their steps.
- Wrap-around of the wall clock's generation number past 2^31.
- Envelope contents beyond the kernel's header, but for display texts, registrations and commands in `Mailboxes.dfy`; what user processes compute; the test processes.
- `k_non_blocking_receive_message`, `move_process`, `peek_process_front`, `peek_process_back`: unused.
- proc_set_prio's command parser, hot-key printing, polled UART, printf's format dispatch: plumbing.
- ProcessKeyboardInput: states who is served, not the block request, copy and send for each of them; that these follow, as kernel calls of KCD, is `MachineRuns.CommandsAreSent`.
- UartInputs.CommandsAreTheLines: a command is passed on in one step there; `MachineRuns` has the sends one by one.
- Which block KCD copies a command into and when CRT frees a displayed one: any block they hold, at any time.
- That KCD and CRT come to run: `MachineRuns` says what holds whenever they do; who runs is `PriorityOrder`.
