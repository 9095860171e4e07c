# vee runtime: verified models

vee is a small C++ actor runtime. An actor owns a ring mailbox, a job counter, a state word and a signal
channel. Requesters on any number of threads mail it jobs, and whoever raises the counter from zero wakes
the worker through the channel. A scheduler places jobs on actors in turn. Two pieces of the library stand
on their own: a periodic timer that arms itself again from its own handler, and a Base64 codec.

The concurrent parts (ring guards, signal channel, actor) are transition systems: a step is one atomic
action of one thread, a run is any interleaving of any number of threads, and theorems are about every
state of every run. The parts that one thread uses at a time are classes whose fields and arrays are
changed in place. Where a part uses another, the models are composed: the concurrent ring and the actor use
the atomic queue of `BoundedFifo`, the actor's steps contain those of `SignalChannel`, and the scheduler
class calls actor objects that hold ring queue objects. The timer comes as both, a transition system and a
class whose methods are proved to take its steps.

| file | what it holds |
|---|---|
| `BoundedFifo.dfy` | the atomic bounded queue, its calls and their histories |
| `RingQueue.dfy` | the circular array with its running indices, as a class that refines a sequence |
| `RingGuards.dfy` | the same ring under many threads, with index guard and slot guards |
| `SignalChannel.dfy` | the rendezvous of one atomic word and a pointer to a promise |
| `ActorProtocol.dfy` | the actor's state machine and its invariant |
| `ActorResults.dfy` | what every run of an actor keeps |
| `ActorExit.dfy` | how the worker's last signal travels |
| `ActorProgress.dfy` | that runs come to rest with all accepted jobs executed |
| `ActorKill.dfy` | that kill completes, and whom it leaves behind |
| `ActorRequests.dfy` | what a request answers, and how a kill closes the actor |
| `Delegate.dfy`, `ActorEpoch.dfy` | delegates, and the epoch that assigns all its jobs to one variable |
| `Scheduler.dfy` | tickets, round robin and the placement loop |
| `Timer.dfy` | the self-arming timer |
| `Base64.dfy` | bit regrouping and the codec |
| `Wrappers.dfy` | options, results, and sums over threads |

## Where the code is not what it seems

For each of these a theorem or a contract says exactly what the code does, and when it does what it is for.

- The slot guards of the ring are taken with `std::adopt_lock` (vee/queue.h:78 and 115), which does not
  lock anything. The layout shows the intent, to lock the slot guard before the index guard is released.
  The model has both readings. The ring is linearizable with guards that are really locked; with adopted
  ones, that is as the code is written, it is so if and only if it has no slots or a single thread. With a
  slot and a second thread a dequeue can return an item that was never enqueued. All other theorems about
  rings, and the actor's mailbox, take the intended reading.
- The ring's assignment operator starts copying at the source's rear index instead of its front. It copies
  the contents, whatever they are, exactly when the source is empty or full. Assigning a queue to itself
  empties it, and an assignment refused for lack of capacity has already emptied its target.
- Delegate assignment keeps a part of the target whose counterpart in the source is empty. An epoch assigns
  all its mails to one variable, so it makes exactly the calls its mails ask for if and only if no mail has
  an empty part that an earlier mail of the epoch filled. A mail with an empty delegate runs the handlers
  of the mail before it again.
- Removing a wrapped `std::function` compares plain functions only and never finds a functor.
- The timer assigns its callback as a delegate, so a run whose callback has an empty part keeps the handlers
  that an earlier run left there. Stopping a timer does not undo a tick that a handler has already decided on.
- A timer completion that was queued before `stop` counts for the next `run`, whose first tick then comes
  before any of its own waits has expired. All ticks of a run come from its own waits, whatever happens,
  if and only if no successful completion is queued when `run` is called.
- Base64 decoding drops trailing NUL bytes, so the round trip is exact for the byte strings that do not end
  in NUL. Line-broken text decodes again exactly when it has no line break, that is up to 54 bytes.
- A scheduler gives up at the first draw that is negative. Beyond the largest ticket the counter goes on at
  the smallest, and a negative ticket chooses an actor (the first one) only if it is a multiple of their
  number. So with two or more actors a request at a ticket of zero or more is placed if and only if a ticket
  from there up to the largest chooses an actor that takes it, or the smallest ticket is such a multiple and
  the first actor takes it; and a request at a negative ticket if and only if that ticket is such a multiple
  and the first actor takes it. A single actor is chosen by every ticket: it gets the job if it takes it, and
  is asked for ever if it does not.
- Kill shuts the gate first, but a worker that is still starting opens it again afterwards
  (vee/actor.h:138-139). Requests made after the start of a kill are all turned down, whatever happens, if and
  only if the worker was up when it began, or there is no thread besides owner and worker, or no room for any
  job. Once kill has claimed the state word they are turned down in any case.
- A kill that claims the state word before a requester that has just raised the counter from zero leaves
  that requester spinning for ever, and its job unexecuted. Kill itself always completes, and leaves at most
  one behind. It can happen if and only if there is a thread besides owner and worker and the mailbox has
  room for a job.

## Model

| member | source | states |
|---|---|---|
| BoundedFifo.ApplyMeans | vee/queue.h:57-125 | when each call succeeds, what it puts in at the end and takes off the front, and what its caller sees of that |
| BoundedFifo.ApplyConserves | vee/queue.h:57-125 | one call neither loses nor invents an item, nor reorders any |
| BoundedFifo.ItemsLeaveInArrivalOrder | vee/queue.h:57-125 | over any history of calls, in either mode, the admitted items are the removed ones followed by those still held |
| BoundedFifo.LegalIffAnswered | vee/queue.h:57-125 | a history is legal exactly when every call got the answer that the queue before it calls for |
| BoundedFifo.LegalAdmitsAccepted | vee/queue.h:57-83 | the items admitted over a legal history are those of its accepted enqueues, in order |
| BoundedFifo.TakenInTurn | vee/queue.h:101-125 | each dequeue of a legal history takes the next accepted item that has not been removed before |
| RingIndex.SlotsDistinct | vee/queue.h:70-76 | offsets below the capacity name different slots |
| RingIndex.WindowAppend | vee/queue.h:73-81 | writing the rear slot of a ring that is not full appends to its contents and disturbs nothing else |
| RingIndex.WindowDropFirst | vee/queue.h:111-113 | advancing the front drops exactly the oldest item |
| RingIndex.WindowOverwrite | vee/queue.h:64-72 | overwriting a full ring drops the oldest item and appends the new one |
| RingQueues.RingQueue.constructor | vee/queue.h:21-31 | a new queue is empty and refuses when full |
| RingQueues.RingQueue.Enqueue | vee/queue.h:57-83 | refines the atomic enqueue: appends, refuses when full, or in overwrite mode drops the oldest; a refusal changes nothing |
| RingQueues.RingQueue.ShallowDequeue | vee/queue.h:84-95 | drops the head, and reports whether there was one |
| RingQueues.RingQueue.Dequeue | vee/queue.h:101-125 | hands out the head and removes it; an empty queue leaves the caller's variable as it was |
| RingQueues.RingQueue.DequeueDiscarding | vee/queue.h:96-100 | drops the head like the other dequeue |
| RingQueues.RingQueue.Clear | vee/queue.h:126-129 | ends, with the queue empty |
| RingQueues.RingQueue.Assign | vee/queue.h:138-163 | accepted exactly when the target's capacity suffices; no enqueue of the copy loop fails; the target ends with the cyclic window that starts at the source's rear, and empty when refused or assigned to itself |
| RingQueues.AssignmentCopiesOnlyEmptyOrFull | vee/queue.h:154-161 | that window is the source's contents, whatever the slots hold, if and only if the source is empty or full |
| RingGuards.InvNext | vee/queue.h:57-125 | each atomic step of any thread keeps the invariant that ties guards, slots and pending accesses to the atomic queue |
| RingGuards.RunKeepsInv | vee/queue.h:57-125 | the invariant holds in every state of every run with locked slot guards |
| RingGuards.RunLinearizes | vee/queue.h:57-125 | in every run with locked slot guards the calls, in the order of their index updates, are a legal history of the atomic queue, and each finished call returned what that history says |
| RingGuards.HistoryRespectsTime | vee/queue.h:57-125 | a call that begins when another has returned, be it of another thread or an earlier one of its own, comes later in that history |
| RingGuards.SlotAccessIsSafe | vee/queue.h:78-81 | a thread about to touch a slot holds its guard alone, finds the item it was promised, and comes before every other thread that has reserved the slot |
| RingGuards.QuietRingHoldsQueue | vee/queue.h:57-125 | when no call is under way the slots hold the atomic queue, in order |
| RingGuards.AdoptedGuardReadsTooEarly | vee/queue.h:115-123 | with guards that are adopted but not locked, any empty ring with a slot, two threads and an item that its first slot does not hold has a run in which a dequeue returns an item that no enqueue was accepted for |
| RingGuards.SafeRunLinearizes | vee/queue.h:78-79 | adopted guards do no harm when there are no slots or a single thread |
| RingGuards.LinearizesIff | vee/queue.h:78-79 | for any number of slots and threads, either mode and any item type with two values: every run from an empty ring linearizes if and only if the slot guards are locked, or there are no slots, or at most one thread |
| RingGuards.SomeoneCanMove | vee/lock.h:36-47 | a thread inside a call can move or waits for one that can: the two guard levels never deadlock |
| RingGuards.StepsUseUpWork | vee/queue.h:57-125 | every step of a call under way lowers a bound on the steps that are left |
| RingGuards.CallsCanFinish | vee/lock.h:36-47 | from any reachable state all calls under way can return within that bound |
| SignalChannel.InvNext | vee/signal_channel.h:31-55 | each step of recv and try_send keeps the rendezvous invariant |
| SignalChannel.RunDelivers | vee/signal_channel.h:31-55 | values received are values sent, in order, plus at most one in flight; every promise is set once, and nobody follows a null or stale pointer |
| SignalChannel.RunExcludes | vee/signal_channel.h:37-43 | at most one thread holds each end of the rendezvous |
| SignalChannel.RunSetsLivePromise | vee/signal_channel.h:52-53 | a sender about to set a promise finds the one that a receiver is blocked on, still empty |
| SignalChannel.HandOverMoves | vee/signal_channel.h:37-54 | a hand-over that has begun never gets stuck |
| SignalChannel.TrySendAnswers | vee/signal_channel.h:46-55 | in any run, a call of try_send ends with true if and only if it has sent its own value, once and nothing else, and with false if and only if it has changed neither word, pointer, promises nor sent values |
| SignalChannel.RecvAnswers | vee/signal_channel.h:31-45 | in any run, a call of recv that returns has received the value it returns, once and nothing else, and had found nobody waiting; one that throws had found somebody waiting and has received nothing |
| SignalChannel.RetryChangesNothing | vee/actor.h:80-83 | a try_send that fails answers false, and repeated it is back where it was |
| ActorProtocol.DequeueFindsMail | vee/actor.h:164-167 | the epoch's dequeue never finds the mailbox empty |
| ActorProtocol.OwnerNeverThrows | vee/actor.h:121-129 | the thread that constructs and kills never finds somebody else waiting in recv |
| ActorProtocol.WorkerNeverThrows | vee/actor.h:130-158 | nor does the worker |
| ActorProtocol.ChannelKeepsProtocol | vee/signal_channel.h:31-55 | every channel step keeps the actor's lifecycle and wakeup invariants |
| ActorProtocol.InvNext | vee/actor.h:63-181 | each atomic step of constructor, kill, worker or requester keeps the whole invariant |
| ActorProtocol.RunKeepsInv | vee/actor.h:63-181 | the invariant holds in every state of every run |
| ActorResults.NoLostWakeup | vee/actor.h:73-84 | the counter is positive exactly when the worker is in its epoch, or the active signal is in the channel, or exactly one requester is still to deliver it, and never two of these at once |
| ActorResults.CounterAccounts | vee/actor.h:159-181 | mailbox size and counter differ exactly by the uncounted requests and the job not yet subtracted; the counter is never negative nor above capacity plus one, a dequeue finds mail, and coming to rest finds the state word it expects |
| ActorResults.NestedRequestNeverSpins | vee/actor.h:73-85 | a request from inside a running job returns at least 1 when accepted and never spins on its own actor |
| ActorResults.ExactlyOnceInOrder | vee/actor.h:65-85 | accepted jobs are the executed ones, the one in hand and the mailed ones, in order and without repetition; a request returns an error code exactly when its job was not accepted |
| ActorResults.HandshakeNeverFails | vee/actor.h:87-158 | constructor, worker loop and kill only receive the signals meant for them, and no throw of actor or channel is reachable |
| ActorResults.DeadForGood | vee/actor.h:87-101 | once kill has claimed the state word nothing more is executed, and a requester that lost the word to kill never gets it |
| ActorExit.StepKeepsConfirmed | vee/actor.h:147-151 | the worker has handed over its last signal exactly when that is in the channel, with kill, or kill has returned |
| ActorExit.RunLasts | vee/actor.h:87-158 | this, and that an actor which is up and not being killed is open, holds in every state of every run |
| ActorProgress.StepsUseUpWork | vee/actor.h:63-181 | every step other than a new request or the start of a kill lowers a measure of the work left, before and during a kill |
| ActorProgress.SomebodyMoves | vee/actor.h:63-181 | every reachable state that is not at rest lets some thread move; at rest means drained before a kill, and after one that kill has returned |
| ActorProgress.EveryRunComesToRest | vee/actor.h:63-181 | from every state reached before a kill the actor comes to rest within a known number of steps |
| ActorProgress.StuckIsDrained | vee/actor.h:130-181 | no schedule goes on for ever, and one that cannot go on has ended with the worker waiting, the counter zero, the mailbox empty and all accepted jobs executed |
| ActorKill.KillCompletes | vee/actor.h:87-101 | once kill has begun, and with no further requests, no schedule goes on for ever, and one that cannot go on has ended with kill returned, the worker gone, and nobody in a request but waiting for the state word |
| ActorKill.EveryKillCompletes | vee/actor.h:87-101 | such a schedule exists from every state reached after the start of a kill |
| ActorKill.KillLeaves | vee/actor.h:73-79 | at most one requester is left behind, and all accepted jobs were executed if and only if none is |
| ActorKill.KillMayStrandIff | vee/actor.h:73-90 | some run leaves a requester behind if and only if there is a third thread and the mailbox has room for a job |
| ActorRequests.RequestAnswers | vee/actor.h:63-86 | in any run, a request returns -1 only if it found the actor not workable or dead, -2 only if it found it open and the mailbox full, and else the counter from which it raised it by one, having found it open and with room |
| ActorRequests.KillShuts | vee/actor.h:87-93 | the start of a kill shuts an actor whose worker is up, and claiming the state word shuts any |
| ActorRequests.ShutForGood | vee/actor.h:65-68 | once the actor is shut, every request made from then on that returns gives -1, and none is ever accepted |
| ActorRequests.KillShutsIff | vee/actor.h:87-93 | after the start of a kill no later request is ever accepted, if and only if the worker was up, or there is no third thread, or no room for any job |
| ActorRequests.KillUndone | vee/actor.h:138-139 | otherwise the starting worker opens the gate again and a request slips in |
| Delegates.Delegate.constructor | vee/delegate.h:99 | a new delegate has no handlers |
| Delegates.Delegate.Copy | vee/delegate.h:103-111 | a copy has the source's handlers |
| Delegates.Delegate.Assign | vee/delegate.h:209-227 | either part is replaced only by one that is not empty |
| Delegates.Delegate.Fire | vee/delegate.h:134-144 | calls every plain handler in order of addition, then every keyed one by key, each with the arguments, and nothing else; stated position by position |
| Delegates.Delegate.AddPlain | vee/delegate.h:156-161 | appends to the plain handlers |
| Delegates.Delegate.AddKeyed | vee/delegate.h:162-167 | a key that is taken keeps its handler |
| Delegates.Delegate.RemovePlain | vee/delegate.h:168-182 | removes the first equal handler, and reports whether there was one |
| Delegates.Delegate.RemoveWrapped | vee/delegate.h:183-195 | does so for plain functions only |
| Delegates.Delegate.RemoveKey | vee/delegate.h:196-208 | removes exactly the entry with the key |
| Delegates.InsertIsMapInsert | vee/delegate.h:166 | keyed handlers stay in key order, and an insertion adds its pair exactly when the key was free |
| Delegates.RemoveUndoesAdd | vee/delegate.h:157-182 | removing right after adding restores the list exactly when nothing else follows an earlier occurrence of the handler |
| Delegates.AssignmentsLeaveLastNonempty | vee/delegate.h:112-121 | any sequence of assignments leaves the last nonempty list and the last nonempty map |
| Delegates.AssignmentCopiesIff | vee/delegate.h:210-218 | assignment makes target and source equal exactly when the source replaces each part that the target holds |
| Delegates.RemoveFirstAt | vee/delegate.h:172-179 | what is removed is the first occurrence |
| ActorEpoch.Actor.Request | vee/actor.h:63-86 | closed actors return -1 and full mailboxes -2 without effect; otherwise the mail is appended, the old counter returned and the worker signalled |
| ActorEpoch.Actor.Kill | vee/actor.h:87-91 | an epoch that is due is run to its end first; then the actor takes no more requests |
| ActorEpoch.Actor.RequestAll | vee/actor.h:63-86 | of the requests made while a job runs, as many are accepted as there is room for, and none signals the worker |
| ActorEpoch.Actor.RunHead | vee/actor.h:164-170 | takes the head mail, assigns it over the job variable, and calls what that now holds |
| ActorEpoch.Actor.RunOne | vee/actor.h:162-174 | runs the head mail, takes in the requests made meanwhile, and counts it off |
| ActorEpoch.Actor.RunMails | vee/actor.h:162-174 | the loop ends with the mailbox empty, and its calls are those of all mails there were and came |
| ActorEpoch.Actor.Epoch | vee/actor.h:159-181 | empties the mailbox, including what is accepted while its jobs run, makes exactly the calls of all these mails merged in order, and comes to rest |
| ActorEpoch.EpochRunsJobByJob | vee/actor.h:161-170 | each job adds, after the calls of those before it, those of the plain and then of the keyed handlers that the job variable has got by all assignments so far, with its own arguments |
| ActorEpoch.EpochCallsIff | vee/actor.h:161-170 | the calls of an epoch are those its mails ask for, in order, if and only if no mail has an empty part that an earlier one filled |
| ActorEpoch.LeftoversAddCalls | vee/delegate.h:214-217 | handlers left in the job variable only ever add calls |
| ActorEpoch.PlainMailsRunInOrder | vee/actor.h:161-170 | mails with plain handlers and no keyed ones are run in mailbox order, each with its own handlers |
| ActorEpoch.EmptyMailRepeatsHandlers | vee/actor.h:161-170 | an empty mail runs its predecessor's handlers again |
| RoundRobin.EveryActorOnce | vee/scheduler.h:49-58 | any n consecutive draws short of the wrap-around choose each of n actors once |
| RoundRobin.Balanced | vee/scheduler.h:49-58 | of k consecutive draws short of the wrap-around each actor gets k/n rounded down or up, and which of the two is exactly determined |
| Schedulers.Scheduler.NextIndex | vee/scheduler.h:49-58 | draws one ticket, with wrap-around and the remainder that truncates towards zero; -1 without actors |
| Schedulers.Scheduler.Offer | vee/scheduler.h:39-44 | offers the job to one actor; no other mailbox changes |
| Schedulers.Scheduler.Turn | vee/scheduler.h:31-44 | one turn of the loop: a ticket, and an offer to the actor it chooses |
| Schedulers.Scheduler.Request | vee/scheduler.h:26-47 | the first draw that is negative or meets an actor that takes the job ends the loop; the job is placed, at the end of exactly one mailbox, if and only if the draws reach such an actor, which is told beforehand from ticket and actors |
| Schedulers.ReachesIffPlaceable | vee/scheduler.h:49-58 | with one actor, the draws reach one that takes the job if and only if it does; with more, from a negative ticket if and only if that is a multiple of their number and the first takes it, and from any other if and only if a ticket up to the largest chooses one that does, or the smallest ticket is such a multiple and the first does |
| Schedulers.LoopEndsIff | vee/scheduler.h:29-45 | the loop has an end, from any ticket, if and only if it is not a single actor that turns the job down |
| Schedulers.LoneActorAlwaysDrawn | vee/scheduler.h:49-58 | with one actor no draw is ever negative |
| Schedulers.LastingTicketFinds | vee/scheduler.h:29-45 | a ticket that lasts a round finds the first actor in turn that takes the job, at one ticket per actor asked |
| Schedulers.PatienceWears | vee/scheduler.h:51-56 | with two or more actors the loop cannot go round for ever, even across the wrap-around of tickets |
| TimerSteps.InvNext | libvee_master/voost/timer/xtimer.cpp:38-119 | run, stop, expiry, and every step of a handler keep the timer's invariant |
| TimerSteps.TimerKeepsTicking | libvee_master/voost/timer/xtimer.cpp:94-119 | at most one wait is pending; a running timer has a wait, a queued success or a handler to keep it going; ticks since the last run are 1, 2, 3, ... modulo 2^32, and those of the last calls made; every wait started is pending or completes once |
| TimerSteps.StoppedStaysQuiet | libvee_master/voost/timer/xtimer.cpp:109-118 | until it is started again, a stopped timer makes no call and starts no wait but those of a handler that had found it running before |
| TimerSteps.RunningDropsNothing | libvee_master/voost/timer/xtimer.cpp:109-114 | a running timer drops no successful completion |
| TimerSteps.CallsGoToInstalled | libvee_master/voost/timer/xtimer.cpp:42-43 | until the timer is started anew, all calls go to the callback installed |
| TimerSteps.TicksComeFromExpiries | libvee_master/voost/timer/xtimer.cpp:105-119 | successful completions are conserved: ticks delivered, to come and dropped make up the waits expired since the last run and the completions queued before it |
| TimerSteps.TicksAreOwnIff | libvee_master/voost/timer/xtimer.cpp:38-48 | whatever follows a run, its ticks never outnumber its own expired waits, if and only if no successful completion is queued when it is called |
| TimerSteps.StaleCompletionTicksEarly | libvee_master/voost/timer/xtimer.cpp:105-113 | from any state with such a completion, run can deliver tick 1 before any of its own waits has expired |
| TimerSteps.StaleCompletionArises | libvee_master/voost/timer/xtimer.cpp:74-80 | such a state is reached by stopping right after a wait has expired |
| Timers.AsyncTimer.Run | libvee_master/voost/timer/xtimer.cpp:38-72 | a running timer is left as it is; otherwise it runs, with one wait started, ticks from zero, and each part of its callback replaced by one that is not empty |
| Timers.AsyncTimer.Stop | libvee_master/voost/timer/xtimer.cpp:74-80 | stops, and reports whether the timer was running |
| Timers.AsyncTimer.SetTimer | libvee_master/voost/timer/xtimer.cpp:94-103 | every pending wait completes as aborted and one is started |
| Timers.AsyncTimer.Expire | libvee_master/voost/timer/xtimer.cpp:94-103 | a pending wait completes with success |
| Timers.AsyncTimer.Callback | libvee_master/voost/timer/xtimer.cpp:112 | the last request made from the callback decides whether the timer runs, and each run that finds it stopped installs its callback and starts anew |
| Timers.AsyncTimer.TickAndRearm | libvee_master/voost/timer/xtimer.cpp:109-114 | counts, calls back with the new count, and arms again whatever the callback did |
| Timers.AsyncTimer.OnTimer | libvee_master/voost/timer/xtimer.cpp:105-124 | a success that finds the timer running makes one call, of the callback installed and with the next tick, and leaves one wait pending whatever the callback did; an aborted completion, or one that finds the timer stopped, changes nothing but the queue |
| Timers.HandleMeans | libvee_master/voost/timer/xtimer.cpp:105-124 | the same of the sequence of steps that a handler is |
| Timers.HandleKeepsInv | libvee_master/voost/timer/xtimer.cpp:105-124 | these steps keep the timer invariant |
| BitStreams.GroupOfStream | libvee_master/voost/string/base64.cpp:15 | cutting a stream of numbers back into numbers gives the numbers |
| BitStreams.StreamOfGroup | libvee_master/voost/string/base64.cpp:25 | the stream of the cut numbers is the bits, filled up with zeros |
| Base64.LettersAreTable | libvee_master/voost/string/base64.cpp:25 | the letter of each value is the one in its place in table 1 of RFC 4648, given as a string |
| Base64.NumberIsPlace | libvee_master/voost/string/base64.cpp:15 | a character of that table is read as its place, `=` as 0, and no other character is read |
| Base64.DecodesIffReadable | libvee_master/voost/string/base64.cpp:12-20 | a text decodes exactly when it has no other characters; else the first of them is reported |
| Base64.TrimNuls | libvee_master/voost/string/base64.cpp:16-19 | what is trimmed is NULs at the end, and all of them |
| Base64.RoundTrip | libvee_master/voost/string/base64.cpp:12-28 | decoding an encoding gives the bytes without their trailing NULs |
| Base64.RoundTripExactIff | libvee_master/voost/string/base64.cpp:12-28 | and the bytes themselves if and only if they do not end in NUL |
| Base64.EncodeInjective | libvee_master/voost/string/base64.cpp:22-28 | different byte strings have different encodings, trailing NULs included |
| Base64.ReverseTrip | libvee_master/voost/string/base64.cpp:12-28 | whole groups of four letters decode to bytes that, before trimming, encode to them again |
| Base64.EncodeIsRfc | libvee_master/voost/string/base64.cpp:22-28 | the bit regrouping with its padding is the encoding of section 4 of RFC 4648, 24 bits at a time, over the characters of its table 1 |
| Base64.EncodeLength | libvee_master/voost/string/base64.cpp:22-28 | the length is four times the number of groups of three, padding included |
| Base64.PaddedBuffer | libvee_master/voost/string/base64.cpp:46-51 | the zeros added to the buffer change no letter of the data |
| Base64.JoinedBroken | libvee_master/voost/string/base64.cpp:35-45 | line breaks are all that breaking adds |
| Base64.BrokenLines | libvee_master/voost/string/base64.cpp:35-53 | breaking, then padding to a multiple of four, never makes a line longer than 72 or leaves the last one empty |
| Base64.BrokenIsRefused | libvee_master/voost/string/base64.cpp:15-16 | decoding refuses the first line break it meets |
| Base64.EncodeInLines | libvee_master/voost/string/base64.cpp:30-56 | without line breaks it is the other encoding; every line but the last has 72 characters, the last 1 to 72 with its padding (section 6.8 of RFC 2045 allows 76); it decodes exactly up to 54 bytes |

## Left out

Assumptions and simplifications:

- Memory order: steps are sequentially consistent, and a thread's own work between two atomic actions belongs to the first of them.
- Slot guards: apart from the two theorems about adopted guards, they are taken to be locked before the index guard is released.
- Spinning: an attempt that fails is no step of the actor or the ring; `SignalChannel.RetryChangesNothing` is the reason for try_send. Fairness is not assumed, so the progress theorems bound the steps that change something, not the failed attempts in between.
- The three concurrent protocols are values rather than objects: aliasing and lifetime of the C++ objects, of the promise on the receiver's stack in particular, are not captured. A promise counts as gone once recv has returned it.
- Ring indices and the job counter are unbounded integers: capacities are taken to fit the source's int. The scheduler's ticket has the source's width and wraps around.
- RingQueues.RingQueue.Enqueue: overwrite mode with capacity 0 divides by zero in the source and is excluded; no operation of the repository turns that mode on.
- RingQueues.RingQueue.Dequeue: items are copied where the source moves them out, and a slot is taken to be assigned as a whole. A slot that holds a moved-from delegate is empty, so the merging assignment of delegates makes no difference there.
- RingQueues.RingQueue.Assign: items are copied also where the source moves them; the guards it takes are not modelled.
- ActorKill.KillCompletes: one kill. Second kills and respawn, which races with the old worker's last store, are not modelled.
- ActorEpoch.Actor.Kill: no requests arrive while kill waits, and the exit signals are left to the protocol model.
- ActorEpoch.Actor.Epoch: requests arrive while a job runs. One that arrives between two jobs has the effect of arriving in one of them; the moment between the last decrement and the end of the epoch is in the protocol model, where jobs are numbers.
- Schedulers.Scheduler.Request: run alone, with jobs passed by copy and a group that does not change. The call that never returns, with a single actor that turns the job down, has no result to state: it is excluded by a precondition, and `Schedulers.LoopEndsIff` says that this is the only one. The counter shared by all schedulers of a type is an object of its own.
- Timers.AsyncTimer.Run: atomic with respect to handlers, and one thread serves the completions. The three overloads differ in the unit of the period only, and the period is not modelled. A stop between the compare-and-swap and the store that follows it would be undone by the store.
- Base64.EncodeInLines: empty data is excluded, since the source takes the address of the first byte of an empty buffer.
- Base64.RoundTrip: the Boost adaptors have their documented meaning (bits regrouped most significant first and filled with zeros, `=` decoded as 0, a line break before character 73). A text whose length is no multiple of four is filled up with zeros when decoded.
- Initial values that the source leaves unset (`actor_group::_size`, the timer's running state) are taken to be 0.

Not modelled:

- actor: the constructor that takes an external mailbox, thread join and detach, sleeping, waiting_for_exit, destruction
- actor_group: adding and removing actors
- delegate: console messages, the call operators that forward their arguments, return values of handlers
- signal_channel: the specialization for void
- lock: `spin_lock::try_lock`, whose result is inverted and which nothing here uses
- object_pool, flag, tuple_unpacker, type_parser, string trimming, SHA-1 and byte order functions: no operation there adds a property that is hard to see
- sockets, pipes, shared memory, windows handles, streams and websockets: input and output, and foreign calls
