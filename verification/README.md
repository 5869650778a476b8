# Verified models of annotated systems code

The repository collects well-known systems libraries with annotations. This project models the parts of them
that are hardest to get right and proves what they promise, for all inputs and all runs:

- **Lock-free containers** (`QueueSpec`, `LockFreeQueue`, `StackSpec`, `LockFreeStack`, `SpscRing`). Each is a state
  machine with one shared-memory access per step, any number of threads (one producer and one consumer for the
  ring), nodes recycled through a free list and tagged handles against reuse. The queue and the stack refine an
  atomic automaton with the same labels, so every run is linearizable; the ring neither loses nor reorders anything
  although both sides work from outdated copies of the other's index.
- **gin's router** (`RoutePatterns`, `RouteTree`, `RouteInsert`, `Router`, `RouteConflicts`, `RouterHeap`, `Engine`).
  Registration and lookup are stated on tree values and proved against an independent pattern matcher;
  `RouteConflicts` says without any tree which sets of patterns can be registered; `RouterHeap` carries the same code
  out in place on linked nodes and loops, and is proved equal to the value functions.
- **gin's path cleaning and handler chain** (`CleanPath`, `Middleware`).
- **libco** (`SharedStack`, `SharedStackRuns`, `IntrusiveList`, `TimingWheel`, `EventLoop`): copying of shared
  coroutine stacks, which no program can tell from stacks of its own, the
  intrusive doubly linked lists at pointer level, the millisecond wheel on top of them, and the event loop with its
  three ways of waking a waiter and its turns as a whole.
- **gRPC client retries** (`RetryStream`): a sender and a receiver on one client stream, with attempts replaced and
  operations replayed under them.
- **groupcache** (`GroupCache`) and **arc4random** (`Arc4Random`).

`Common` holds what several modules share, and `Modular` the facts about remainders that the ring, the wheel and the
generator use.

Where the code does not do what its description suggests, the model follows the code:

- gin counts a pattern's wildcards in 16 bits. `Router.ParamsFit` gives the exact condition under which lookups stay
  within the parameter capacity, and `Router.ParamsOverflow` a pattern that breaks it.
- gRPC leaves the current attempt uncommitted and incomplete when a replay fails and the next attempt then gets no
  transport. It also buffers, and for calls that do not stream acknowledges, a message whose write failed.
  `RetryStream.AttemptSeesBuffer` gives the exact condition under which an uncommitted attempt has seen the buffered
  operations, `RetryStream.CommittedSeesAll` the one under which an attempt has seen all that was acknowledged, and
  `RetryStream.TornRun` and `RetryStream.LossyRun` runs that break them. `RetryStream.CrashIs` says exactly when the
  next operation then dereferences a stream that does not exist.
- groupcache counts bytes twice for a key that is added again. `GroupCache.AddSound` gives the exact condition, and
  `GroupCache.CachesSound` shows that the second lookup inside a flight keeps it true.
- groupcache measures its caches one after the other and may pick a victim that is empty by then.
  `GroupCache.EmptyVictim` gives the exact condition and `GroupCache.EmptyVictimRun` a run; `GroupCache.LimitAtRest`
  shows that the limit holds all the same.
- libco stores 64-bit time differences in an `int`. `TimingWheel.RangeTest` and `TimingWheel.CountTest` say exactly
  for which ones the range test and the count of passed milliseconds are right; the wheel's contracts cover those, and
  for the count also the ones that are read as negative or too small.
- the ring adds counts to indices in `size_t`. `SpscRing.RangeEndExact` says exactly for which ranges this goes wrong.
- gin's handler index is an `int8`. `Middleware.Context.Serve` ties a panic to the index of `Middleware.Outcome`,
  `Middleware.OutcomeCounts` gives the exact number of calls of `Next` that a chain without aborts survives, and
  `Middleware.AbortedByCounting` says when such a chain looks aborted.
- libco's stack goes on to name a released coroutine as its occupant. `SharedStack.Env.Release` gives the exact
  condition, and `SharedStack.Env.ReleaseOccupant` shows the next switch writing to the released one.

## Model

| member | source | states |
|---|---|---|
| `QueueSpec.Fifo` | boost-lockfree/queue.hpp:299-424 | over every run of the atomic queue, the values pushed are the values popped followed by the values still queued |
| `LockFreeQueue.KnowsStable` | boost-lockfree/queue.hpp:299-424 | what a thread knows from earlier loads survives every append, tail swing, head advance and reuse of a node by others |
| `LockFreeQueue.AppendKeepsInv` | boost-lockfree/queue.hpp:299-330 | the compare-and-swap that links a new node keeps the chain well linked, owned once, and the tail within one node of its end |
| `LockFreeQueue.AdvanceKeepsInv` | boost-lockfree/queue.hpp:386-424 | the compare-and-swap that advances the head keeps the invariant and hands the old dummy to the popper alone |
| `LockFreeQueue.SwingKeepsInv` | boost-lockfree/queue.hpp:299-424 | helping the tail forward, by pushers and poppers, keeps the invariant however old the helper's handle is |
| `LockFreeQueue.NextKeepsInv` | boost-lockfree/queue.hpp:114-150 | every step of every thread, from construction and the first dummy node on, keeps the invariant |
| `LockFreeQueue.PushEffect` | boost-lockfree/queue.hpp:299-330 | a successful link adds exactly the pushed value at the end of the contents |
| `LockFreeQueue.PopEffect` | boost-lockfree/queue.hpp:386-424 | a successful advance removes exactly the first value and returns it |
| `LockFreeQueue.NextSimulates` | boost-lockfree/queue.hpp:299-424 | every step is a step of the atomic queue with the same label |
| `LockFreeQueue.RunHasInv` | boost-lockfree/queue.hpp:114-150 | the invariant holds in every reachable state |
| `LockFreeQueue.Linearizable` | boost-lockfree/queue.hpp:299-424 | every concurrent run is step for step a run of the atomic queue with the same calls, effects and answers |
| `LockFreeQueue.FifoRuns` | boost-lockfree/queue.hpp:299-424 | over every concurrent run, pushed is popped followed by what is linked |
| `LockFreeQueue.TailFollowsHead` | boost-lockfree/queue.hpp:299-424 | the tail is always reachable from the head and at most one node before the end |
| `LockFreeQueue.NoNullRetry` | boost-lockfree/queue.hpp:386-424 | once the head was re-read unchanged and differs from the tail, the successor read before is never null |
| `LockFreeQueue.EmptyAnswerIsTrue` | boost-lockfree/queue.hpp:386-424 | pop answers empty only from a round whose load of the successor found the queue empty |
| `LockFreeQueue.MemorySafe` | boost-lockfree/queue.hpp:299-424 | no thread dereferences null or an unmapped node, however outdated its handles are |
| `StackSpec.Conserved` | boost-lockfree/stack.hpp:312-713 | over every run of the atomic stack, what was pushed is what was removed, one at a time or all at once, and what is still there |
| `LockFreeStack.KnowsStable` | boost-lockfree/stack.hpp:224-335 | what a thread knows from earlier loads survives every push, pop and detachment by others |
| `LockFreeStack.PushKeepsInv` | boost-lockfree/stack.hpp:224-234 | linking a prepared list of nodes keeps the chain well linked and every node owned once |
| `LockFreeStack.PopKeepsInv` | boost-lockfree/stack.hpp:493-511 | unlinking the top keeps the invariant and hands the node to the consumer alone |
| `LockFreeStack.TakeKeepsInv` | boost-lockfree/stack.hpp:571-608 | detaching the whole chain keeps the invariant and hands all its nodes to the consumer |
| `LockFreeStack.RevStoreKnows` | boost-lockfree/stack.hpp:658-713 | each step of the in-place link reversal moves one node from the chain still to turn to the chain already turned |
| `LockFreeStack.PushEffect` | boost-lockfree/stack.hpp:312-335 | a push makes the whole range appear at once, in reversed order, on top of the contents |
| `LockFreeStack.PopEffect` | boost-lockfree/stack.hpp:493-511 | a pop removes exactly the current top, also when the compare-and-swap fails any number of times before |
| `LockFreeStack.TakeEffect` | boost-lockfree/stack.hpp:571-608 | consuming all empties the stack at one instant and owes the consumer exactly its contents |
| `LockFreeStack.WalkDestructSimulates` | boost-lockfree/stack.hpp:571-713 | the walk visits and frees every detached node exactly once, in the order owed, until the last |
| `LockFreeStack.NextRefines` | boost-lockfree/stack.hpp:224-335 | every step keeps the invariant and is a step of the atomic stack with the same label |
| `LockFreeStack.Linearizable` | boost-lockfree/stack.hpp:224-713 | every concurrent run is step for step a run of the atomic stack, with ranges, pops, consume-all and its reversed form |
| `LockFreeStack.ConservedRuns` | boost-lockfree/stack.hpp:312-713 | over every concurrent run, nothing pushed is lost, invented or handed over twice |
| `LockFreeStack.MemorySafe` | boost-lockfree/stack.hpp:224-713 | no thread dereferences null or an unmapped node, and a node a thread has taken is taken by nobody else, not on the stack and not in the pool |
| `SpscRing.NextIndexLoop` | boost-lockfree/spsc_queue.hpp:64-74 | the subtracting loop computes the next index of the ring |
| `SpscRing.AvailableSum` | boost-lockfree/spsc_queue.hpp:76-93 | despite unsigned wrap-around the two counts add up to the capacity |
| `SpscRing.CountsAre` | boost-lockfree/spsc_queue.hpp:64-93 | the counts and the full and empty tests computed from indices agree with the true numbers of elements |
| `SpscRing.SectionIs` | boost-lockfree/spsc_queue.hpp:135-172 | copying in one or two sections puts every element of a range into its own slot of the ring, if index and count fit a word |
| `SpscRing.RangeEndIs` | boost-lockfree/spsc_queue.hpp:135-172 | the index published after such a range is the slot after its last element |
| `SpscRing.RangeEndExact` | boost-lockfree/spsc_queue.hpp:152-170 | the index after a range is right if and only if index and count add up to less than 2 to the 64 |
| `SpscRing.SizeExact` | boost-lockfree/spsc_queue.hpp:152-170 | it is right for all ranges if and only if the ring has at most 2 to the 63 slots |
| `SpscRing.PushKeepsInv` | boost-lockfree/spsc_queue.hpp:111-131 | a single push keeps the invariant and is refused exactly when the ring is full at its load |
| `SpscRing.PushManyKeepsInv` | boost-lockfree/spsc_queue.hpp:139-172 | a range push keeps the invariant and accepts exactly the prefix that fits at its load |
| `SpscRing.ConsumeOneKeepsInv` | boost-lockfree/spsc_queue.hpp:174-189 | a single consume keeps the invariant and is refused exactly when everything pushed has been consumed |
| `SpscRing.TakeManyKeepsInv` | boost-lockfree/spsc_queue.hpp:209-309 | popping a range or consuming all keeps the invariant and takes exactly what is there, up to the limit |
| `SpscRing.StoreSlotDead` | boost-lockfree/spsc_queue.hpp:111-172 | an element is only ever constructed in a slot without a live object |
| `SpscRing.TakeSlotLive` | boost-lockfree/spsc_queue.hpp:174-309 | the slot read or destroyed holds the oldest element not yet consumed |
| `SpscRing.Conservation` | boost-lockfree/spsc_queue.hpp:111-309 | in every state of every interleaving of a ring of any size in which no range wraps, consumed followed by buffered is pushed, the buffered part read off the slots |
| `SpscRing.RaceFree` | boost-lockfree/spsc_queue.hpp:64-309 | in every state of the same runs the two threads never work on the same slot, stores go to dead slots, reads to live ones |
| `RoutePatterns.MatchLiteral` | gin-1.6.3/tree.go:411-528 | how the reference matcher treats a literal part of a pattern |
| `RoutePatterns.MatchParam` | gin-1.6.3/tree.go:430-480 | how the reference matcher treats a parameter: it needs a non-empty rest of the path and takes its first segment, which may be empty |
| `RouteTree.LookupFinds` | gin-1.6.3/tree.go:411-528 | in a well-formed tree, lookup returns any route whose pattern matches, with its captures |
| `RouteTree.LookupSound` | gin-1.6.3/tree.go:411-528 | what lookup returns is a route of the tree whose pattern matches the path with the captures returned |
| `RouteInsert.InsertChildOk` | gin-1.6.3/tree.go:287-396 | inserting below a fresh node yields a well-formed subtree with exactly the new route |
| `RouteInsert.RaiseSorts` | gin-1.6.3/tree.go:113-134 | raising a child's priority keeps the siblings in non-increasing priority |
| `RouteInsert.RaiseKeeps` | gin-1.6.3/tree.go:113-134 | moving a raised child keeps siblings and index bytes aligned |
| `RouteInsert.SplitOk` | gin-1.6.3/tree.go:158-183 | splitting an edge keeps the tree well formed and its routes, and counts them in the new priority |
| `RouteInsert.AttachLiteralOk` | gin-1.6.3/tree.go:185-253 | attaching a new literal child keeps the tree well formed and adds exactly the new route |
| `RouteInsert.WalkOk` | gin-1.6.3/tree.go:138-259 | a registration from any node that does not panic adds exactly the new route and keeps priorities equal to route counts |
| `Router.AddRouteOk` | gin-1.6.3/gin.go:256-274 | a registration at the root keeps a built tree built |
| `Router.Build` | gin-1.6.3/gin.go:256-274 | every tree reached by registrations is well formed, counts its routes and holds exactly the registered ones |
| `Router.Complete` | gin-1.6.3/tree.go:411-528 | if a registered pattern matches the path, lookup returns that registration's handlers, pattern and captures |
| `Router.Sound` | gin-1.6.3/tree.go:411-528 | what lookup returns is a registered pattern that matches, with its handlers and captures |
| `Router.PatternsDistinct` | gin-1.6.3/tree.go:138-259 | registering a pattern twice never returns |
| `Router.MatchUnique` | gin-1.6.3/tree.go:138-259 | at most one registered pattern matches any path |
| `Router.ListsEachOnce` | gin-1.6.3/gin.go:276-303 | the listing names every registration exactly once under its full pattern, and nothing else |
| `Router.MaxParams` | gin-1.6.3/gin.go:256-274 | the capacity is the largest 16-bit wildcard count of a registered pattern |
| `Router.SavedParams` | gin-1.6.3/tree.go:453-454 | however a lookup ends, it has saved no more parameters than some route of the tree has wildcards |
| `Router.FindsItself` | gin-1.6.3/tree.go:411-528 | every registered route is found under its own pattern, with one parameter per wildcard |
| `Router.ParamsFit` | gin-1.6.3/gin.go:166-169 | lookups stay within the capacity for all paths if and only if every pattern has fewer than 65536 wildcards |
| `Router.ParamsOverflow` | gin-1.6.3/tree.go:83-89 | one pattern with 65536 parameters leaves a capacity of zero, and looking it up saves 65536 |
| `RouteConflicts.AcceptedIs` | gin-1.6.3/tree.go:263-396 | what the insertion checks wildcard by wildcard holds exactly if each wildcard of the pattern is named, alone in its segment and, if a catch-all, last and after a slash |
| `RouteConflicts.WalkIff` | gin-1.6.3/tree.go:138-259 | the walk of a registration returns exactly if its pattern is well formed and compatible with every route below the node |
| `RouteConflicts.AddRouteIff` | gin-1.6.3/tree.go:138-259 | one more registration returns exactly if it is admissible on its own and compatible with each earlier pattern |
| `RouteConflicts.BuildIff` | gin-1.6.3/tree.go:138-396 | a sequence of registrations returns if and only if each is admissible and every two patterns are compatible, both stated without a tree |
| `RouteConflicts.OrderIrrelevant` | gin-1.6.3/tree.go:138-396 | if registrations return, so does any choice of them in any order |
| `RouterHeap.LongestCommonPrefix` | gin-1.6.3/tree.go:74-81 | the loop finds the length of the longest common prefix |
| `RouterHeap.ScanWildcard` | gin-1.6.3/tree.go:263-285 | the scan finds the first wildcard, its extent and whether its name is valid |
| `RouterHeap.MoveForward` | gin-1.6.3/tree.go:118-124 | the swapping loop moves a child in front of all lighter siblings |
| `RouterHeap.TreeNode.IncrementChildPrio` | gin-1.6.3/tree.go:113-134 | in place, the node's value becomes the raised one and the child's new position is returned |
| `RouterHeap.TreeNode.Insert` | gin-1.6.3/tree.go:287-396 | in place, the node's value becomes that of the value function, which also decides when to panic |
| `RouterHeap.TreeNode.SplitEdge` | gin-1.6.3/tree.go:158-183 | in place, the edge is split as on values, reusing the old children |
| `RouterHeap.TreeNode.AddRoute` | gin-1.6.3/tree.go:138-259 | in place, a registration panics exactly when the value function does, and otherwise produces its tree |
| `RouterHeap.TreeNode.GetValue` | gin-1.6.3/tree.go:411-528 | the loop down the linked nodes returns what lookup on the tree's value returns |
| `Engine.Engine.AddRoute` | gin-1.6.3/gin.go:256-274 | a registration panics exactly when building from all registrations does, and otherwise updates tree and capacity |
| `Engine.Engine.GetValue` | gin-1.6.3/gin.go:400-425 | a request is answered as by the reference, not found before the first registration, within the capacity if no pattern overflows the count |
| `CleanPath.BufApp` | gin-1.6.3/path.go:127-150 | a byte is appended to what is shown, whether or not a buffer has to be allocated for it |
| `CleanPath.Backtrack` | gin-1.6.3/path.go:74-92 | going back removes exactly the last element and its slash |
| `CleanPath.CopyElement` | gin-1.6.3/path.go:101-106 | an element is copied up to the next slash or the end |
| `CleanPath.ReadAll` | gin-1.6.3/path.go:60-109 | the loop leaves the stack of the split-and-stack reference, without writing ahead of its reading |
| `CleanPath.Canonicalize` | gin-1.6.3/path.go:21-123 | for every path, what splitting at slashes and stacking the elements gives, with this code's trailing slash |
| `CleanPath.RenderSplit` | gin-1.6.3/path.go:8-20 | rendering a stack of elements and splitting the result gives the stack back |
| `CleanPath.Idempotent` | gin-1.6.3/path.go:8-20 | cleaning a clean path changes nothing |
| `Middleware.CombineHandlers` | gin-1.6.3/routergroup.go:210-219 | both chains in order, refused exactly when together they reach the abort index |
| `Middleware.Context.Next` | gin-1.6.3/context.go:162-168 | starts the pending handlers in order up to the first that aborts at once, or does nothing but step the index; panics exactly when the index wraps |
| `Middleware.Context.Abort` | gin-1.6.3/context.go:179-181 | no handler starts from here on |
| `Middleware.Context.Serve` | gin-1.6.3/context.go:42-181 | exactly the handlers up to the first whose first action is an abort start, in order and each once, all of them if there is none; index and panic are as the reference says |
| `Middleware.OutcomeCounts` | gin-1.6.3/context.go:162-181 | without an abort the index ends at the length of the chain plus the calls of `Next`, and the request panics exactly if that exceeds 127 |
| `Middleware.PoliteSafe` | gin-1.6.3/context.go:162-181 | no request panics if no handler calls `Next` more than once, wherever handlers abort |
| `Middleware.AbortedByCounting` | gin-1.6.3/context.go:170-173 | a request in which nobody aborts looks aborted afterwards exactly if chain length and calls of `Next` reach the abort index |
| `SharedStack.Coroutine.SaveStackBuffer` | libco/co_routine.cpp:737-754 | the saved bytes are the used part of the stack |
| `SharedStack.Env.TakeStack` | libco/co_routine.cpp:772-797 | the displaced occupant's bytes are saved and nobody else's are touched |
| `SharedStack.Env.Swap` | libco/co_routine.cpp:763-824 | after a switch every coroutine switched away from still has its bytes, and the one switched to finds its own |
| `SharedStack.Env.Resume` | libco/co_routine.cpp:678-698 | a coroutine suspended before continues on exactly the bytes it was suspended with, for any nesting |
| `SharedStack.Env.Yield` | libco/co_routine.cpp:706-721 | the resumer continues on exactly the bytes it was suspended with |
| `SharedStack.Env.Execute` | libco/co_routine.cpp:539-556 | whatever the running coroutine leaves on its stack, no suspended coroutine loses its bytes |
| `SharedStack.Env.Create` | libco/co_routine.cpp:564-631 | a new coroutine on a private or a shared stack disturbs nobody |
| `SharedStack.Env.AddSharedStack` | libco/co_routine.cpp:303-320 | a new stack to share disturbs nobody |
| `SharedStack.Env.Release` | libco/co_routine.cpp:656-669 | releasing a coroutine that is not on the call stack keeps everything right if and only if its stack does not name it as occupant |
| `SharedStack.Env.ReleaseOccupant` | libco/co_routine.cpp:656-669 | after the release of an occupant, the next switch to another coroutine on that stack saves the bytes into the released one |
| `SharedStack.Env.constructor` | libco/co_routine.cpp:889-917 | the main coroutine runs from the start on a stack of its own |
| `SharedStackRuns.Machine.DoResume` | libco/co_routine.cpp:678-698 | resuming changes nobody's view of its stack, whether the other coroutine is new, suspended or the same |
| `SharedStackRuns.Machine.DoYield` | libco/co_routine.cpp:706-721 | yielding changes nobody's view of its stack |
| `SharedStackRuns.Machine.Play` | libco/co_routine.cpp:678-824 | for every set of programs and every number of switches, who continues and on what is as if every coroutine had a stack of its own |
| `IntrusiveList.List.Append` | libco/co_routine.cpp:204-223 | at pointer level, the list gains exactly the item, at its tail |
| `IntrusiveList.List.Remove` | libco/co_routine.cpp:162-202 | at pointer level, the list loses exactly the item, wherever it is |
| `IntrusiveList.List.Pop` | libco/co_routine.cpp:225-249 | at pointer level, the list loses exactly its head |
| `IntrusiveList.List.Splice` | libco/co_routine.cpp:252-280 | at pointer level, all of one list moves to the end of the other, in order |
| `IntrusiveList.World.AddTail` | libco/co_routine.cpp:204-223 | an item in no list goes to the tail, one in a list stays where it is; all other lists are unchanged |
| `IntrusiveList.World.RemoveFromLink` | libco/co_routine.cpp:162-202 | the item leaves the list it is in, if any; all other lists and links are unchanged |
| `IntrusiveList.World.PopHead` | libco/co_routine.cpp:225-249 | the head leaves the list, if any; everything else is unchanged |
| `IntrusiveList.World.Join` | libco/co_routine.cpp:252-280 | the second list is empty, its items follow those of the first, and every item points to the list it is in |
| `TimingWheel.RangeTest` | libco/co_routine.cpp:471-481 | for which time differences the range test on the converted `int` is right, exactly |
| `TimingWheel.CountTest` | libco/co_routine.cpp:512-524 | for which gaps the converted count is what has passed, capped, and for which it is negative, exactly |
| `TimingWheel.CollectIs` | libco/co_routine.cpp:498-534 | collecting slot by slot keeps the order within each millisecond and takes nothing outside the range |
| `TimingWheel.CollectDelivers` | libco/co_routine.cpp:526-533 | taking the first milliseconds delivers all that is due if and only if nothing due lies behind them |
| `TimingWheel.DeliversUnique` | libco/co_routine.cpp:498-534 | only one sequence holds the expired items by expiry and first come first served within a millisecond |
| `TimingWheel.Wheel.constructor` | libco/co_routine.cpp:418-429 | an empty wheel starting now |
| `TimingWheel.Wheel.AddTimeout` | libco/co_routine.cpp:442-488 | for all distances the range test gets right: accepted exactly when the times are in order and the expiry lies within the wheel; the item then waits behind earlier ones |
| `TimingWheel.Wheel.TakeAllTimeout` | libco/co_routine.cpp:498-534 | for all gaps the count gets right, delivers exactly the items with expiry up to now, by expiry and first come first served, also when capped; the rest stay; a negative count changes nothing, any other takes that many milliseconds |
| `TimingWheel.Wheel.Unlink` | libco/co_routine.cpp:162-202 | taking an item out of its list leaves the wheel correct for the others |
| `EventLoop.Loop.OnEvent` | libco/co_routine.cpp:938-963 | every event is counted, and only the first one takes the wait out of the wheel and to the end of the active list |
| `EventLoop.Loop.Expire` | libco/co_routine.cpp:1015-1032 | exactly the expired waits are marked and follow the active ones, by expiry; nothing happens if the count is negative |
| `EventLoop.Loop.ProcessHead` | libco/co_routine.cpp:1034-1051 | the head of the active list is processed, was never processed before, and leaves every list it was in |
| `EventLoop.Loop.Poll` | libco/co_routine.cpp:1137-1252 | accepted exactly when the capped timeout lies within the wheel; the new wait is then in the wheel and nowhere else |
| `EventLoop.Loop.CondWait` | libco/co_routine.cpp:1444-1472 | the new wait is last in the queue, and in the wheel exactly if it has a timeout |
| `EventLoop.Loop.NewCond` | libco/co_routine.cpp:1473-1476 | a new condition has an empty queue and disturbs nothing |
| `EventLoop.Loop.Signal` | libco/co_routine.cpp:1404-1418 | exactly the longest waiting entry leaves the queue and its wait becomes active, wherever it was |
| `EventLoop.Loop.Broadcast` | libco/co_routine.cpp:1423-1435 | the queue is emptied, every wait of it becomes active, and no other queue changes |
| `EventLoop.ArriveInOrder` | libco/co_routine.cpp:996-1013 | waits that have their first event follow the active ones in the order of the events |
| `EventLoop.Loop.Prepare` | libco/co_routine.cpp:996-1013 | after the events of a turn every wait named is active, at the place of its first event, and no longer in the wheel |
| `EventLoop.Loop.Process` | libco/co_routine.cpp:1034-1051 | whatever the resumed coroutines signal and register, the loop processes every active wait and ends with none; if nobody is woken, in list order |
| `EventLoop.Loop.Turn` | libco/co_routine.cpp:985-1051 | in one turn every wait with an event and every wait that expired is processed, no wait is ever processed twice, and if nobody is woken meanwhile those with an event come in order before those that expired by expiry |
| `EventLoop.Loop.InOneList` | libco/co_routine.cpp:162-280 | no item is in two lists |
| `RetryStream.PolicyCapped` | grpc-go-1.35.0/service_config.go:325-344 | a configured policy allows two to five attempts |
| `RetryStream.CommitKeeps` | grpc-go-1.35.0/stream.go:481-487 | committing leaves what was written, accepted and acknowledged as it is and calls back once |
| `RetryStream.RunKeeps` | grpc-go-1.35.0/stream.go:629-657 | an operation applied without the lock, to the current or an abandoned attempt, with or without a stream, keeps the invariant |
| `RetryStream.SettleKeeps` | grpc-go-1.35.0/stream.go:629-657 | taking the lock again, going round, buffering, committing or starting to retry keeps the invariant |
| `RetryStream.DecideKeeps` | grpc-go-1.35.0/stream.go:605-620 | giving up, failing to get a transport or starting a new attempt keeps the invariant |
| `RetryStream.ReplayOneKeeps` | grpc-go-1.35.0/stream.go:701-709 | replaying one buffered operation, well or badly, keeps the invariant |
| `RetryStream.NextKeeps` | grpc-go-1.35.0/stream.go:481-897 | every step of sender, receiver, commit and finish keeps the invariant |
| `RetryStream.MissingIs` | grpc-go-1.35.0/stream.go:605-722 | over every run, an accepted send is missing from the current attempt exactly if its replay still owes it, was cut short before it, or took it without writing it |
| `RetryStream.AttemptSeesBuffer` | grpc-go-1.35.0/stream.go:605-722 | an uncommitted attempt has been sent exactly the buffered sends plus at most one in flight if and only if no replay on it was cut short and no send was taken on it whose write failed |
| `RetryStream.CommittedSeesAll` | grpc-go-1.35.0/stream.go:481-722 | an attempt, committed or not, has been sent every acknowledged send exactly once and in order if and only if no replay on it left out an acknowledged one and none was taken on it whose write failed; the callback is called at most once |
| `RetryStream.CutIsReported` | grpc-go-1.35.0/stream.go:605-657 | whenever the lock is free, a replay on the current attempt that was cut short has made a call fail |
| `RetryStream.TornRun` | grpc-go-1.35.0/stream.go:605-620 | a run that leaves an uncommitted, then committed attempt without an acknowledged operation |
| `RetryStream.LossyRun` | grpc-go-1.35.0/stream.go:880-897 | runs without any failure after which a message is buffered, and for a call that does not stream acknowledged and committed, that the attempt has not been sent |
| `RetryStream.StreamIs` | grpc-go-1.35.0/stream.go:389-404 | once the stream is open, the current attempt lacks a transport stream exactly if the replay on it failed at the opening |
| `RetryStream.ReplayUsable` | grpc-go-1.35.0/stream.go:701-709 | a replay never uses an attempt without a transport stream |
| `RetryStream.CrashIs` | grpc-go-1.35.0/stream.go:629-657 | an operation uses an attempt without a transport stream exactly if it is not the opening and works on the current attempt, the replay on which failed at the opening |
| `RetryStream.RetryUsesUp` | grpc-go-1.35.0/stream.go:497-620 | every retry of a fail-fast call decreases a measure over the first-attempt flag and the number of retries |
| `RetryStream.RetriesBounded` | grpc-go-1.35.0/stream.go:497-620 | every call makes at most one transparent retry and one less counted retry than the policy allows attempts, and a fail-fast call no others |
| `RetryStream.RetriesCapped` | grpc-go-1.35.0/service_config.go:325-344 | with a configured policy that is at most one transparent and four counted retries, and six attempts of a fail-fast call |
| `GroupCache.AddSound` | groupcache/groupcache.go:410-425 | adding keeps the byte count right if and only if the key is new or its old entry has no bytes |
| `GroupCache.LookSound` | groupcache/groupcache.go:427-440 | a lookup keeps keys and byte count |
| `GroupCache.DropSound` | groupcache/groupcache.go:442-448 | an eviction keeps the byte count right and adds no key |
| `GroupCache.NextKeepsInv` | groupcache/groupcache.go:237-359 | every lookup, flight, fetch, add and eviction step of any number of callers keeps the invariant |
| `GroupCache.CachesSound` | groupcache/groupcache.go:237-359 | in every run the two caches never share a key and each byte count is the size of what is there |
| `GroupCache.Cache.Add` | groupcache/groupcache.go:410-425 | the cache becomes the one with the entry in front and its size counted |
| `GroupCache.Cache.Get` | groupcache/groupcache.go:427-440 | a hit returns the entry's value and makes it the latest used |
| `GroupCache.Cache.RemoveOldest` | groupcache/groupcache.go:442-448 | the oldest entry leaves with its bytes, and an empty cache stays as it is |
| `GroupCache.NextLimited` | groupcache/groupcache.go:335-359 | every step of any number of callers keeps that caches above the limit have a caller in the eviction loop whose measurement will not let it leave |
| `GroupCache.LimitAtRest` | groupcache/groupcache.go:335-359 | in every run, whenever no caller is in the eviction loop, what is in both caches together is within the limit; without a limit both are empty |
| `GroupCache.EmptyVictim` | groupcache/groupcache.go:344-357 | a caller picks a victim with nothing to evict exactly if hot is at most an eighth of the main bytes it measured and main has been emptied since |
| `GroupCache.UndisturbedEvicts` | groupcache/groupcache.go:342-358 | if nobody has evicted since a caller measured main, its own eviction evicts something, whatever others look up and add |
| `GroupCache.EmptyVictimRun` | groupcache/groupcache.go:342-358 | a run from the empty group in which a caller picks the main cache that another one has emptied |
| `GroupCache.EvictAll` | groupcache/groupcache.go:341-358 | one caller alone: every round evicts, the loop ends within the limit, only the oldest entries are lost and no more than necessary, main only when hot is at most an eighth of it, hot only when it is more |
| `GroupCache.PopulateCache` | groupcache/groupcache.go:335-359 | one caller alone: the new entry is put in front of its cache and then both are evicted as above, the new entry itself if it is too large |
| `Arc4Random.Arc4.constructor` | libevent/arc4random.c:96-105 | the initial state is the identity |
| `Arc4Random.MixGood` | libevent/arc4random.c:107-122 | any number of rounds of mixing in any data keeps the table a permutation and steps the index once a round |
| `Arc4Random.Arc4.AddRandom` | libevent/arc4random.c:107-122 | in place, the state after 256 rounds of mixing in the data, with the indices made equal |
| `Arc4Random.Arc4.GetByte` | libevent/arc4random.c:425-437 | in place, the state advances by one swap and stays a permutation, and the byte is the entry at the sum of the two |
| `Arc4Random.Arc4.GetWord` | libevent/arc4random.c:439-450 | four draws in a row, the first one highest |
| `Arc4Random.MinIs` | libevent/arc4random.c:529-540 | the 32-bit computation yields the remainder of 2 to the 32 for every bound, and it is below 2 to the 31 |
| `Arc4Random.Unbiased` | libevent/arc4random.c:523-555 | every result below the bound comes from the same number of accepted words |
| `Arc4Random.Uniform` | libevent/arc4random.c:523-555 | the result is the remainder of the first draw that is not rejected |

## Left out

- Weak memory orders: every shared access of the lock-free containers is one atomic step of a sequentially consistent machine.
- Finite tags: the tags of tagged handles do not wrap around.
- Exceptions thrown while nodes of a range are constructed, the bounded and the thread-unsafe variants of the containers, and the node pool beyond taking and returning nodes.
- SpscRing.RaceFree: what happens after a range operation whose index and count wrap, which needs more than 2^63 slots; the published index is then wrong by `SpscRing.RangeEndExact`.
- SpscRing.Conservation: the same.
- SpscRing.SectionIs: ranges that wrap, for which copying is wrong.
- SpscRing.RangeEndIs: ranges that wrap, for which `SpscRing.RangeEndExact` shows the index to be wrong.
- SpscRing.PushManyKeepsInv: a range push that wraps.
- SpscRing.TakeManyKeepsInv: a range pop that wraps.
- SpscRing: `front`, `reset` and the size queries of the containers.
- Router: the trailing-slash recommendation, unescaping of parameters and the case-insensitive search of gin's tree.
- Router: several HTTP methods; `Engine` models the tree of one.
- RouterHeap.TreeNode.AddRoute: nothing is promised about a tree whose registration panicked half way; the walk of the source is a loop, here it is a recursion over the nodes.
- Middleware: handlers are the sequence of calls they make on the context; what a recovered panic leaves behind.
- SharedStack.Env.Resume: a call stack deeper than the 128 entries the source has room for, rounding of stack sizes, and what the register switch itself leaves below the recorded stack pointer.
- TimingWheel.Wheel.AddTimeout: distances that `TimingWheel.RangeTest` shows to be misread, for which the item goes into a wrong slot or outside the array; a clock at zero.
- TimingWheel.Wheel.TakeAllTimeout: overflow of the 64-bit start index.
- EventLoop.Loop.Expire: gaps that `TimingWheel.CountTest` shows to be read as too small a count, after which the wheel no longer holds what it should.
- EventLoop.Loop.Turn: the same gaps, and waits registered meanwhile at misread distances; the callback at the end of a turn.
- EventLoop.Loop.Process: waits registered meanwhile at distances that `TimingWheel.RangeTest` shows to be misread.
- EventLoop.Loop.Poll: such distances, and a clock at zero.
- EventLoop.Loop.CondWait: such distances, and a clock at zero.
- EventLoop: descriptor registration with the kernel, the call back to a plain poll, items without a prepare function, waits that something other than the loop resumes, and an event loop started from within a handler.
- RetryStream: more than one sender or one receiver at a time, back-off times, statistics and tracing, and whether what was written reaches the server.
- GroupCache.EvictAll: other callers at work during the loop, for whom `GroupCache.LimitAtRest` and `GroupCache.UndisturbedEvicts` hold.
- GroupCache.PopulateCache: the same, and a key whose old entry has bytes, which `GroupCache.CachesSound` shows not to happen and `GroupCache.AddSound` shows to spoil the count.
- GroupCache: statistics of the group, peer selection, and the cached values' agreement with their origin.
- Arc4Random: seeding from the operating system, the byte counter that triggers it, and locking.
- The rest of the repository, which is either simpler versions of the same ideas or input and output around them.
