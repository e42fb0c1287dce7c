# k8s-scheduler-sim: the simulation engine in Dafny

k8s-scheduler-sim simulates a Kubernetes cluster tick by tick. Nodes run pods. Each pod runs a workload algorithm: a batch job, or a service that answers a stream of requests. On every tick, each node does the following:
- shares its CPUs among its running pods with a fair time-slice scheduler;
- throttles the slices under CPU pressure;
- lets every workload consume its slices and memory;
- reports CPU, memory and load figures.

Controllers run before and after each update. Some are deployed on a timer and fed by a topic message queue. A metrics aggregator keeps moving averages, and a service controller computes latency percentiles with quickselect.

This project models that engine and proves what each part promises. There is one Dafny module per source file:

| module | source |
|---|---|
| `CoreScheduler` | the fair CPU scheduler and its registry (`pkg/simulate/corescheduler.go`) |
| `NodeAccounting`, `NodeRun` | shared pressure throttling, slot gathering and CPU, memory and load accounting of a node tick (`pkg/core/node.go`, `pkg/simulate/node.go`) |
| `CoreNode` | the node with graceful deletion (`pkg/core/node.go`) |
| `SimulateNode` | the older node (`pkg/simulate/node.go`) |
| `BatchWork`, `CoreBatchPod`, `PodsBatchPod`, `SimulateBatchPod` | the three batch workloads (`pkg/core/batchpod.go`, `pkg/pods/batchpod.go`, `pkg/simulate/batchpod.go`) |
| `ServicePod` | the service workload: request queue, admission check, and packing requests onto the earliest-free CPU (`pkg/pods/servicepod.go`) |
| `Heap` | `container/heap`, used by the service pod's free-CPU heap and by the deployer's timer queue |
| `Metrics` | the fixed-capacity ring with a running sum, and the aggregator (`pkg/metrics/aggregator.go`) |
| `ServiceStats` | in-place partition, `findPercentile`, the latency accumulator and `isPodBindSuccess` (`pkg/controllers/service.go`) |
| `Queue` | the unbounded FIFO on a growable ring (`pkg/util/ringqueue.go`) |
| `MessageQueue` | topics, their worker's listener list, and watchers (`pkg/util/messagequeue.go`) |
| `Deployer` | the timed controller deployer (`pkg/controllers/deployer.go`) |
| `SchedSim` | controller registration and removal, pod lookup and the store key functions (`pkg/core/schedsim.go`) |
| `Common` | integer truncation, sums, and an Option/Result pair |

How the Go code becomes Dafny:
- `float64` quantities are exact `real`s. Go's `int(x)` is `Common.Trunc`, which truncates toward zero.
- Objects whose fields the source updates are classes, and loops are `while` loops with invariants. Most methods are proved against a function of their inputs or of the old state, and the properties the source promises are proved as lemmas about that function. The service pod's tick is the exception: its serving scan is proved against a relational contract (`ServicePod.TickSpec`) that carries a ghost trace of the free-CPU heap at every probe.
- A node tick computes an allocatable CPU and memory figure and calls `Set` on `Status.Allocatable.Cpu()` and `Memory()`. Both accessors of the Kubernetes API library (not part of this model) hand back the address of a copy of the map entry, so the node's allocatable resources do not change. The model computes the two figures (`NodeRun.FiguresOf`) and leaves the node's allocatable fields as they were.
- Calls to the Kubernetes client can change nothing the model can see. They are recorded as effect values, in call order.
- The few things the simulator gets from outside become parameters:
  - the order in which Go iterates a map;
  - the workload algorithms a node calls through `PodAlgorithm`;
  - the `%v` rendering used in error text.

## Model

| member | source | states |
|---|---|---|
| CoreScheduler.Cores | pkg/simulate/corescheduler.go:45-54 | a pod's entry count (its request lowered to the CPU count when its integer part exceeds it, then to its CPU limit, truncated) is never more than the CPU count |
| CoreScheduler.CoresIsMinOfFloors | pkg/simulate/corescheduler.go:45-54 | for a non-negative request and limit the entry count is the least of the request's floor, the CPU count and the limit's floor |
| CoreScheduler.Expand | pkg/simulate/corescheduler.go:44-65 | the dealing order lists only pods of the ready list, pod by pod |
| CoreScheduler.CursorIsMod | pkg/simulate/corescheduler.go:43-63 | the wrapping cursor after `t` entries points at CPU `t mod C` |
| CoreScheduler.Scheduled | pkg/simulate/corescheduler.go:34-41 | the schedule has exactly one queue per CPU of the previous state |
| CoreScheduler.Schedule | pkg/simulate/corescheduler.go:33-80 | the method's result is the reference schedule: the dealt queues with the fair slice on every entry, one queue per CPU, whatever the previous queues held |
| CoreScheduler.Deal | pkg/simulate/corescheduler.go:43-65 | after the first loop each CPU queue holds, with zero slices, exactly the entries the single cursor deals it, pods in ready-list order |
| CoreScheduler.DealPod | pkg/simulate/corescheduler.go:54-64 | the inner loop appends `k` entries of one pod, each under the cursor, and leaves the cursor advanced by `k` modulo the CPU count |
| CoreScheduler.AppendEntry | pkg/simulate/corescheduler.go:55-63 | one dealing step appends the entry to the queue under the cursor and changes no other queue |
| CoreScheduler.ShareCpus | pkg/simulate/corescheduler.go:67-77 | the second loop gives every entry on a CPU with `n` entries the slice `1/n` and leaves idle CPUs empty |
| CoreScheduler.ColumnLength | pkg/simulate/corescheduler.go:43-64 | a CPU receives `T div C` entries, plus one for the first `T mod C` CPUs |
| CoreScheduler.ColumnAt | pkg/simulate/corescheduler.go:54-64 | entry `j` of CPU `c` is the entry dealt at position `c + j*C` |
| CoreScheduler.ExpandRuns | pkg/simulate/corescheduler.go:44-64 | a pod's entries occupy one run of consecutive dealing positions, as long as its entry count |
| CoreScheduler.ExpandCount | pkg/simulate/corescheduler.go:44-64 | each pod is dealt exactly its entry count of entries |
| CoreScheduler.AllColumns | pkg/simulate/corescheduler.go:54-64 | dealing onto the CPU queues loses and invents no entry of any pod |
| CoreScheduler.ExpandEmpty | pkg/simulate/corescheduler.go:34-50 | with zero CPUs nothing is dealt |
| CoreScheduler.ScheduleCount | pkg/simulate/corescheduler.go:45-64 | over all queues a pod has exactly its entry count of entries, so never more than the CPU count |
| CoreScheduler.RunsApart | pkg/simulate/corescheduler.go:54-64 | two dealing positions at least `C` apart never hold the same pod |
| CoreScheduler.NoPodTwiceOnACpu | pkg/simulate/corescheduler.go:54-64 | no pod appears twice in the same CPU queue |
| CoreScheduler.SlotsOfACpu | pkg/simulate/corescheduler.go:67-77 | every entry of a queue of length `n` has slice `1/n`, and the slices of a busy CPU add up to 1 |
| CoreScheduler.SumRepeat | pkg/simulate/corescheduler.go:73-76 | `n` copies of a slice add up to `n` times it |
| CoreScheduler.NoPodsNoEntries | pkg/simulate/corescheduler.go:39-42 | without ready pods every queue is empty |
| CoreScheduler.QueueLengths | pkg/simulate/corescheduler.go:43-64 | queue lengths of a schedule differ by at most one: the first `T mod C` CPUs carry the extra entry |
| CoreScheduler.Lookup | pkg/simulate/corescheduler.go:19-22 | a lookup finds a scheduler exactly when the name is registered, and then the one stored |
| CoreScheduler.LookupAfterRegister | pkg/simulate/corescheduler.go:19-26 | after registering a name its lookup returns what was stored, and every other name's lookup is unchanged |
| CoreScheduler.SchedulerMap.constructor | pkg/simulate/corescheduler.go:15-17 | the registry starts with the fair scheduler under its name only |
| CoreScheduler.SchedulerMap.Get | pkg/simulate/corescheduler.go:19-22 | reports absence for an unregistered name and the stored scheduler otherwise |
| CoreScheduler.SchedulerMap.Register | pkg/simulate/corescheduler.go:24-26 | inserts or replaces the name's entry and nothing else |
| NodeAccounting.Reduced | pkg/core/node.go:245-255 | the throttled slices are as many as the slices |
| NodeAccounting.CpuPressureReduction | pkg/core/node.go:245-255 | the array is overwritten in place with the throttled slices |
| NodeAccounting.ReductionScales | pkg/core/node.go:245-255 | below usage 0.7 the slices are unchanged; otherwise every slice, and so their sum, is multiplied by `1-(usage-0.7)`; the length is kept |
| NodeAccounting.ReductionBounded | pkg/simulate/node.go:127-137 | for a usage between 0 and 1.7, throttling never raises a non-negative slice nor makes it negative |
| NodeAccounting.GatherSlots | pkg/core/node.go:170-176 | pod `p`'s slice list is exactly its entries' slices, collected queue by queue in CPU order |
| NodeAccounting.EntrySlotsCount | pkg/simulate/node.go:78-84 | a queue contributes one slice for each entry of the pod |
| NodeAccounting.SlotsOfCount | pkg/simulate/node.go:78-84 | a pod's slice list is as long as its number of entries over all queues |
| NodeAccounting.SlicesPerPod | pkg/core/node.go:169-176 | a ready pod receives exactly its scheduler entry count of slices |
| NodeAccounting.AccountCpu | pkg/core/node.go:196-205 | the CPU time charged is the sum, over the first `coreCount` queues, of each entry's unthrottled slice times its pod's load |
| NodeAccounting.QueueUsedBounded | pkg/core/node.go:199-205 | with loads in [0,1] a queue is charged at most its slices' sum and never less than 0 |
| NodeAccounting.ScheduleUsedBounded | pkg/simulate/node.go:104-110 | the time charged on the first `m` CPUs of a schedule lies between 0 and `m` |
| NodeAccounting.ScheduledPods | pkg/core/node.go:169-174 | every entry of a schedule names one of the ready pods |
| NodeAccounting.CpuUsageInUnit | pkg/core/node.go:207-210 | with loads in [0,1] the CPU usage lies in [0,1] and the figure `coreCount - int(cpuUsed)` lies between 0 and `coreCount` |
| NodeRun.RunOf | pkg/core/node.go:167-205 | the reference run: one outcome per ready pod, the scheduler handed each ready pod's CPU request and limit in ready order (`DemandsOf`), each workload ticked on its throttled slices and its memory request (`OutcomesOf`), CPU charged with the unthrottled slices times the reported loads |
| NodeRun.Requests | pkg/core/node.go:132-138 | the request loop yields the demands and memory requests of the ready pods |
| NodeRun.RunWorkloads | pkg/core/node.go:178-190 | the workload loop ticks each workload on its throttled slices and sums memory use and load |
| NodeRun.RunReady | pkg/core/node.go:167-205 | scheduling, slice gathering, workload ticks and CPU accounting together compute the reference run |
| NodeRun.RunWithinNode | pkg/core/node.go:196-210 | with workload loads in [0,1] the node's CPU usage `cpuUsed/coreCount` lies in [0,1] and the figure `coreCount - int(cpuUsed)` between 0 and `coreCount` |
| NodeRun.WorkloadSlices | pkg/core/node.go:169-185 | each workload receives exactly its entry count of slices, throttled by the previous usage, while accounting uses the unthrottled ones |
| CoreNode.SortPodOther | pkg/core/node.go:114-165 | one iteration of the sorting loop touches only the pod it is on: every other name's readiness, map entry, deletion entry and effects are unchanged |
| CoreNode.SortedPod | pkg/core/node.go:114-165 | after the sorting loop a pod is ready exactly when it runs and any deletion entry still has ticks left after the decrement; it stays on the node exactly when it runs or its deletion was asked; its deletion entry is decremented only when it runs; it is deleted on the client exactly when a deletion entry runs out or a stopped pod's deletion was asked; a pod that stopped on its own gets a status update |
| CoreNode.SortedReadyDistinct | pkg/core/node.go:114-138 | the ready list holds distinct names, all met in the iteration, and the loop adds no pod to the map |
| CoreNode.SortPods | pkg/core/node.go:114-165 | the sorting loop computes the reference sorting |
| CoreNode.WithPhases | pkg/core/node.go:182-186 | recording the workloads' phases keeps the node's pod names |
| CoreNode.ReadyRun | pkg/core/node.go:167-205 | the run has one outcome per ready pod, and every ready pod is on the node |
| CoreNode.TickOf | pkg/core/node.go:101-223 | the tick reports `cpuUsed/coreCount`, `memUsed/memSize` and the summed load, keeps the CPU usage for the next tick, leaves the allocatable resources as they were, keeps the sorted pods with their workloads' phases and the decremented deletion entries, and appends the sorting effects and then the node status update |
| CoreNode.TickWithinNode | pkg/core/node.go:196-211 | with workload loads in [0,1] the reported and kept CPU usage lies in [0,1] and the computed allocatable CPU figure between 0 and `coreCount` |
| CoreNode.TickPod | pkg/core/node.go:114-186 | per pod, over a whole tick: it stays exactly when it runs or is being deleted, it is ready exactly when no deletion entry runs out, a ready pod carries its workload's phase, any other pod that stays is unchanged, and its deletion entry is decremented only while it runs |
| CoreNode.SortedPhases | pkg/core/node.go:114-186 | the same per-pod facts for the pod map after sorting and phase recording |
| CoreNode.WithPhasesAt | pkg/core/node.go:182-186 | a ready pod takes the phase of its own workload's outcome and a pod not ready is unchanged |
| CoreNode.SortedOnNode | pkg/core/node.go:114-138 | every ready pod is still on the node after sorting |
| CoreNode.Node.constructor | pkg/core/node.go:21-42 | a node starts with no pods, no deletions, zero previous usage and its whole capacity allocatable |
| CoreNode.Node.BindPod | pkg/core/node.go:70-92 | a pod already on the node is refused and nothing changes; otherwise it is stored bound to this node and Running, its status update is recorded, and the result is an error exactly when the update fails |
| CoreNode.Node.EvictPod | pkg/core/node.go:94-97 | removes the pod's name from the node and nothing else |
| CoreNode.Node.DeletePod | pkg/core/node.go:225-242 | an unknown name is an error and nothing changes; a graceful tick of 0 removes the name from the pods and the deletions; any other value records the remaining ticks, asks the workload to terminate and keeps the pod |
| CoreNode.Node.Tick | pkg/core/node.go:101-223 | the node's new state and the reported metrics are the reference tick of its old state; the CPU queues are never reassigned |
| CoreNode.SetPhases | pkg/core/node.go:182-186 | the phase-recording loop computes the reference phases |
| CoreNode.PhasesKeepNames | pkg/core/node.go:182-186 | recording phases changes no pod's name, node or CPU limit |
| CoreNode.SortedKeepsNames | pkg/core/node.go:114-165 | after sorting every pod is still stored under its own name |
| SimulateNode.Classify | pkg/simulate/node.go:56-68 | the classification loop splits the pods met into the running ones and the others, in iteration order |
| SimulateNode.Without | pkg/simulate/node.go:70-74 | removing names keeps exactly the other pods, unchanged |
| SimulateNode.DeleteAll | pkg/simulate/node.go:70-74 | the removal loop computes the map without the terminated names |
| SimulateNode.Classified | pkg/simulate/node.go:56-68 | a pod is ready exactly when it is met and Running, and terminated exactly when it is met and not Running |
| SimulateNode.ReadyDistinct | pkg/simulate/node.go:56-64 | the ready list holds no name twice |
| SimulateNode.TickOf | pkg/simulate/node.go:42-124 | the tick reports the run's figures `cpuUsed/coreCount`, `memUsed/memSize` and the summed load, keeps the CPU usage for the next tick and leaves the allocatable resources as they were |
| SimulateNode.ReadyRun | pkg/simulate/node.go:76-110 | the run has one outcome per ready pod |
| SimulateNode.ReadyOnNode | pkg/simulate/node.go:56-64 | every ready pod is on the node |
| SimulateNode.TickKeepsRunning | pkg/simulate/node.go:56-77 | after a tick a pod is on the node exactly when it was Running, unchanged; exactly the Running pods are handed to the scheduler, each once |
| SimulateNode.TickWithinNode | pkg/simulate/node.go:101-116 | with workload loads in [0,1] the reported and kept CPU usage lies in [0,1] and the computed allocatable CPU figure between 0 and `coreCount` |
| SimulateNode.Node.constructor | pkg/simulate/node.go:14-24 | a node starts with no pods, zero previous usage and its whole capacity allocatable |
| SimulateNode.Node.BindPod | pkg/simulate/node.go:27-33 | always succeeds, inserting or overwriting the pod under its name |
| SimulateNode.Node.EvictPod | pkg/simulate/node.go:35-38 | always succeeds, removing the pod's name |
| SimulateNode.Node.Tick | pkg/simulate/node.go:42-124 | the node's new state and the reported metrics are the reference tick of its old state; the CPU queues are never reassigned |
| BatchWork.FullProgress | pkg/core/batchpod.go:49-62 | with enough memory a batch tick progresses by exactly the slot sum, so an empty slot list means no progress |
| BatchWork.ProgressBounds | pkg/pods/batchpod.go:56-69 | when memory is short the slot sum is scaled by `mem/MemUsage`; progress on non-negative slots lies between 0 and the slot sum |
| BatchWork.RemainingNeverGrows | pkg/core/batchpod.go:49-62 | the remaining work never increases, and drops by at most the slot sum |
| CoreBatchPod.BatchPodAlgorithm.constructor | pkg/core/batchpod.go:32-36 | the workload starts with its pod's phase and limit, its memory use and its total work |
| CoreBatchPod.BatchPodAlgorithm.ResourceRequest | pkg/core/batchpod.go:39-41 | requests the pod's CPU limit and the workload's memory use, unchanged (`BatchWork.Request`, shared by the batch variants) |
| CoreBatchPod.BatchPodAlgorithm.Tick | pkg/core/batchpod.go:43-64 | finished work (`TotalTick < 0`) sets Succeeded and returns `(0,0)` leaving the work alone; otherwise it returns load 1 and memory `min(MemUsage, mem)` and subtracts the memory-scaled slot sum; the resource request stays the same |
| PodsBatchPod.BatchPodAlgorithm.constructor | pkg/pods/batchpod.go:38-43 | the workload starts unmarked, with its pod's phase and limit, memory use and total work |
| PodsBatchPod.BatchPodAlgorithm.Terminate | pkg/pods/batchpod.go:18-20 | sets the termination mark and changes nothing else |
| PodsBatchPod.BatchPodAlgorithm.ResourceRequest | pkg/pods/batchpod.go:46-48 | requests the pod's CPU limit and the workload's memory use (`BatchWork.Request`, shared by the batch variants) |
| PodsBatchPod.BatchPodAlgorithm.Tick | pkg/pods/batchpod.go:50-71 | a marked or finished workload sets Succeeded and returns `(0,0)`; otherwise load 1, memory `min(MemUsage, mem)` and the memory-scaled slot sum subtracted from the work; the resource request stays the same |
| PodsBatchPod.TerminateThenTick | pkg/pods/batchpod.go:18-54 | after Terminate the next tick sets Succeeded, returns `(0,0)` and leaves the work unchanged |
| SimulateBatchPod.BatchPod.constructor | pkg/simulate/batchpod.go:22-31 | the pod starts with its limits, memory use and total work |
| SimulateBatchPod.BatchPod.ResourceRequest | pkg/simulate/batchpod.go:10-12 | returns the CPU and memory limits unchanged |
| SimulateBatchPod.BatchPod.GetState | pkg/simulate/batchpod.go:14-20 | terminated exactly when the remaining work is negative, running otherwise |
| SimulateBatchPod.BatchPod.Tick | pkg/simulate/batchpod.go:34-53 | finished work returns `(0,0)` and changes nothing; otherwise load 1, memory `min(memUsage, mem)` and the slot sum, scaled by `mem/memUsage` when memory is short, subtracted from the work |
| SimulateBatchPod.TickTerminated | pkg/simulate/batchpod.go:14-37 | a terminated pod stays terminated and idle through a tick |
| ServicePod.CostSumScale | pkg/pods/servicepod.go:195-220 | the CPU time the served requests take is the time multiplier times their summed slot requirements |
| ServicePod.Reqs | pkg/pods/servicepod.go:193-234 | the served requests, in serving order |
| ServicePod.Penalty | pkg/pods/servicepod.go:278-283 | memoryShortagePenalty is never below 1, and is exactly 1 when the memory needed fits in the memory available |
| ServicePod.PenaltyAsCalled | pkg/pods/servicepod.go:178 | called with `needed = int(0.2·mem)` on non-negative memory the penalty is always 1 |
| ServicePod.KeptTaken | pkg/pods/servicepod.go:193-234 | the scanned requests are split, without loss, into those left queued and those served |
| ServicePod.MaxMemIsPeak | pkg/pods/servicepod.go:182-228 | a CPU's recorded memory is the largest memory requirement of the requests it served, or 0 when it served none |
| ServicePod.PushCpu | pkg/pods/servicepod.go:149-189 | pushing a CPU keeps the start-time heap order and adds exactly that CPU |
| ServicePod.PopCpu | pkg/pods/servicepod.go:153-199 | popping removes a CPU whose start time is least, and keeps the heap order on the rest |
| ServicePod.InitCpus | pkg/pods/servicepod.go:180-190 | the free-CPU heap holds one CPU per slice, its remaining time summing to the slices' sum |
| ServicePod.PassOver | pkg/pods/servicepod.go:199-205 | the probing loop pops CPUs in start-time order until one has time for the request; every CPU passed over lacks it, and when none has it all CPUs are passed over |
| ServicePod.PushAll | pkg/pods/servicepod.go:207-209 | the passed-over CPUs are pushed back, keeping the heap order |
| ServicePod.FindCpu | pkg/pods/servicepod.go:196-209 | a request is given a CPU with time for it and the least start time among such CPUs, or none when no CPU has the time; the other CPUs stay in the heap |
| ServicePod.Streak | pkg/pods/servicepod.go:211-217 | the failure count after some probes: the trailing probes it counts all failed, and the probe just before them, if any, served its request |
| ServicePod.ProbedBelowMaxStep | pkg/pods/servicepod.go:193 | a probe made while fewer than `maxProbe` probes in a row have failed keeps every probe within the loop's guard |
| ServicePod.Probe | pkg/pods/servicepod.go:193-234 | one iteration of the scan keeps the scan invariant, moves on by one request and counts a failure at most |
| ServicePod.SkipOver | pkg/pods/servicepod.go:211-214 | a failed probe finds no CPU with the time for the request: it stays queued, the heap holds the same CPUs, nothing is served and the failure count grows by one |
| ServicePod.ServeOn | pkg/pods/servicepod.go:219-233 | serving a request debits and advances its CPU, records its memory peak and outcome, removes it from the queue and resets the failure count |
| ServicePod.ScanQueue | pkg/pods/servicepod.go:192-234 | the scan probes a request only while fewer than `maxProbe` probes in a row have failed, its failure count is exactly the failures in a row at the end, and it stops when the queue is done or at the first run of `maxProbe` failures; the queue, CPU, time and failure invariants hold at the end |
| ServicePod.Totals | pkg/pods/servicepod.go:237-242 | sums the slices of the CPUs in the heap and their unused time |
| ServicePod.MemoryUsage | pkg/pods/servicepod.go:244-254 | the footprint is the per-CPU peaks, plus `int(0.2·MemRequired)` per still-queued request, plus the base memory, capped at `mem` |
| ServicePod.LoadIsShare | pkg/pods/servicepod.go:256 | the load `(available - unused)/available` is the CPU time used over the slices' sum, at most 1 for non-negative slices |
| ServicePod.Serve | pkg/pods/servicepod.go:170-256 | a tick of an initialised pod meets TickSpec: the scanned requests are a queue prefix, each served or left in FIFO order; each probe, from the idle CPUs on, serves its request exactly when some CPU on the heap has the time for it, on such a CPU with the least start time, which goes back debited; the load is the time used over the time given; the footprint is as MemoryUsage states; every request was probed while fewer than `maxProbe` probes in a row had failed, and an early stop comes right after `maxProbe` requests in a row that no CPU could take |
| ServicePod.IdleUntilServed | pkg/pods/servicepod.go:193-217 | until a tick serves its first request, every probe sees the idle CPUs with their whole slices |
| ServicePod.FrontServedWhenItFits | pkg/pods/servicepod.go:193-234 | a tick serves the request at the front of the queue whenever some CPU's slice is at least its slot requirement (servicepod_test.go:149-179) |
| ServicePod.NothingServedNothingFits | pkg/pods/servicepod.go:193-217 | a tick that serves nothing leaves every CPU idle, and every request it scanned needed more than every CPU's slice |
| ServicePod.SkippedFromIdle | pkg/pods/servicepod.go:193-214 | probes of over-long requests on one idle CPU all fail and leave that CPU idle, however many there are in a row |
| ServicePod.TooLongSkipped | pkg/pods/servicepod.go:193-217 | on one CPU, requests longer than its slice are each probed on the idle CPU and left queued, serving nothing |
| ServicePod.FirstRunProbed | pkg/pods/servicepod.go:193-217 | on one CPU, when the first `maxProbe` requests are each too long for its slice, the scan probes exactly those and every one fails |
| ServicePod.StopsAtFirstRun | pkg/pods/servicepod.go:193-217 | on one CPU, when the first `maxProbe` requests are each too long for its slice, exactly those are probed and the scan stops: nothing is served, the queue is unchanged and the load is 0, whatever requests follow |
| ServicePod.MaxProbingCase | pkg/pods/servicepod_test.go:182-220 | nine requests of 0.5 then one of 0.2 on a slice of 0.3: the tenth is still probed after nine failures and is the only one served, its callback alone is called and the load is 0.2/0.3 |
| ServicePod.ServicePod.constructor | pkg/pods/servicepod.go:51-60 | a pod starts uninitialised with only its base memory set and an empty queue |
| ServicePod.ServicePod.GetLoad | pkg/pods/servicepod.go:92-103 | 0 before the first tick; afterwards the larger of the last load and the last memory usage |
| ServicePod.ServicePod.DeliverRequest | pkg/pods/servicepod.go:105-114 | refuses with ErrInitializing before the first tick; afterwards refuses with ErrDenial exactly when the memory left is below `int(0.2·MemRequired)`, and otherwise appends the request at the back; nothing else changes |
| ServicePod.ServicePod.ReturnUnhandledRequests | pkg/pods/servicepod.go:116-123 | returns all queued requests in FIFO order and empties the queue |
| ServicePod.ServicePod.ResourceRequest | pkg/pods/servicepod.go:266-274 | requests the queue's summed slot requirements and its summed memory plus the base memory |
| ServicePod.ServicePod.ServeTick | pkg/pods/servicepod.go:170-264 | a tick after the first serves the queue as the tick specification says (including both directions of the `maxProbe` stop rule), keeps what was not served as the queue, appends the served requests' ids to the callbacks made and caches the load, memory use and available memory it returns |
| ServicePod.ServicePod.Record | pkg/pods/servicepod.go:229-261 | the unserved requests become the queue, each served request's callback is notified in order, and the load, memory use and available memory are cached |
| ServicePod.ServicePod.Tick | pkg/pods/servicepod.go:159-264 | the first tick returns `(0.5, baseMem)`, leaves the queue alone and marks the pod initialised; later ticks meet TickSpec (as Serve states, both directions of the `maxProbe` stop rule included), keep the unserved requests queued in order, notify each served request's callback once, and cache the load and footprint for GetLoad and DeliverRequest |
| ServicePod.DemandGrows | pkg/pods/servicepod.go:266-274 | a request delivered adds exactly its slot and memory requirement to the resource request |
| Metrics.Window | pkg/metrics/aggregator.go:91-102 | the window of a history holds its last `min(n, capacity)` samples |
| Metrics.WindowIsSuffix | pkg/metrics/aggregator.go:91-102 | the window is the history's tail, in order |
| Metrics.WindowStep | pkg/metrics/aggregator.go:92-101 | a new sample joins the window at the back, and the oldest leaves once the window is full |
| Metrics.SumUpdate | pkg/metrics/aggregator.go:97-99 | overwriting a cell changes the sum by the new value minus the old |
| Metrics.FillStep | pkg/metrics/aggregator.go:92-95 | while filling, writing at index `size` appends to the held cells and adds to their sum |
| Metrics.OverwriteStep | pkg/metrics/aggregator.go:96-100 | when full, overwriting the cell at `head` and moving `head` on drops the oldest sample and appends the new one |
| Metrics.NewRingQueue | pkg/metrics/aggregator.go:76-82 | a new ring of the given capacity holds no samples |
| Metrics.Add | pkg/metrics/aggregator.go:91-103 | the ring keeps its capacity, and afterwards `0 < size <= capacity` and `head < capacity` |
| Metrics.AddCells | pkg/metrics/aggregator.go:92-101 | while not full, add writes at index `size`, increments it and leaves `head`; when full it overwrites the cell at `head`, keeps `size` and moves `head` on modulo the capacity |
| Metrics.AddKeepsRing | pkg/metrics/aggregator.go:91-103 | add keeps the ring invariant (the running sum is the sum of the held cells, `size <= capacity`, `head < capacity`, the cells from `head` on are the window) and returns the mean of the last `min(n, capacity)` samples |
| Metrics.FillKeepsRing | pkg/metrics/aggregator.go:92-95 | the filling branch keeps the ring invariant |
| Metrics.OverwriteKeepsRing | pkg/metrics/aggregator.go:96-101 | the overwriting branch keeps the ring invariant |
| Metrics.RingSum | pkg/metrics/aggregator.go:84-89 | the sum of the held cells is the sum of the samples in ring order |
| Metrics.MeanWithin | pkg/metrics/aggregator.go:102 | the mean of samples within bounds is within those bounds |
| Metrics.Cpus | pkg/metrics/aggregator.go:52-61 | the CPU samples of the ticks, in order |
| Metrics.Mems | pkg/metrics/aggregator.go:53-66 | the memory samples of the ticks, in order |
| Metrics.Loads | pkg/metrics/aggregator.go:54-71 | the load samples of the ticks, in order |
| Metrics.SamplesFigures | pkg/metrics/aggregator.go:56-72 | the figures of a sample series start with the latest sample |
| Metrics.Report | pkg/metrics/aggregator.go:56-72 | the `...LastTick` fields echo the latest tick's CPU, memory and load |
| Metrics.FiguresWithin | pkg/metrics/aggregator.go:56-72 | figures of samples in [0,1] lie in [0,1] |
| Metrics.WindowWithin | pkg/metrics/aggregator.go:102 | a window mean of samples in [0,1] lies in [0,1] |
| Metrics.ReportWithin | pkg/metrics/aggregator.go:56-72 | with CPU and memory usage in [0,1] every CPU and memory average lies in [0,1] |
| Metrics.NewSeries | pkg/metrics/aggregator.go:11-26 | a new series has no samples, a zero sum and empty 60, 300 and 1500 windows |
| Metrics.SeriesAdd | pkg/metrics/aggregator.go:51-71 | adding a sample keeps the three rings well formed |
| Metrics.SeriesAddKeeps | pkg/metrics/aggregator.go:51-71 | adding a sample keeps the series invariant and yields the cumulative average and the three window means of the samples so far |
| Metrics.TickSamples | pkg/metrics/aggregator.go:52-54 | a new tick appends one sample to each of the three series |
| Metrics.NewAggState | pkg/metrics/aggregator.go:11-27 | a new aggregator has seen no ticks |
| Metrics.AggregateState | pkg/metrics/aggregator.go:50-74 | aggregating a tick keeps the invariant over the ticks so far and stores their report as the latest metric |
| Metrics.Aggregator.constructor | pkg/metrics/aggregator.go:11-27 | a new aggregator has seen no ticks |
| Metrics.Aggregator.Get | pkg/metrics/aggregator.go:46-48 | nothing before the first tick, then the report of all ticks so far, which is the most recent Aggregate result |
| Metrics.Aggregator.Aggregate | pkg/metrics/aggregator.go:50-74 | counts the tick and returns the report of all ticks so far: cumulative averages `sum/count`, means over the last 60, 300 and 1500 samples, and the tick itself |
| Metrics.AddSample | pkg/metrics/aggregator.go:52-54 | a running sum grows by the new sample |
| ServiceStats.CountPermutation | pkg/controllers/service.go:200-215 | permuting the array changes no count of elements with a property, so ranks survive findPercentile's reordering |
| ServiceStats.RankUnique | pkg/controllers/service.go:200-215 | the `p`-th smallest value of an array is unique |
| ServiceStats.SplitIsRank | pkg/controllers/service.go:205-214 | when every element before position `p` is below `arr[p]` and none after it is, `arr[p]` is the `p`-th smallest value of any permutation of the array |
| ServiceStats.Ceil | pkg/controllers/service.go:201 | `math.Ceil` of `x`: the least integer not below `x` |
| ServiceStats.PercentileIndex | pkg/controllers/service.go:201 | `p = ceil((n-1)/100·percentile)` is an index of the array for a percentile in [0,100] |
| ServiceStats.ScanDown | pkg/controllers/service.go:228-230 | moves `j` down past elements at or above the pivot value, stopping at `i` or at a smaller element |
| ServiceStats.ScanUp | pkg/controllers/service.go:233-235 | moves `i` up past elements below the pivot value, stopping at `j` or at a larger-or-equal element |
| ServiceStats.HoleMoves | pkg/controllers/service.go:231-236 | copying a cell into the hole and later restoring the pivot keeps the multiset |
| ServiceStats.FillFromBack | pkg/controllers/service.go:228-231 | copying `arr[j]` into the hole at `i` keeps the partition invariant with the hole now at `j` |
| ServiceStats.FillFromFront | pkg/controllers/service.go:233-236 | copying `arr[i]` into the hole at `j` keeps the partition invariant with the hole back at `i` |
| ServiceStats.Exchange | pkg/controllers/service.go:227-237 | one pass of the outer loop keeps the partition invariant, narrows `[i,j]` and touches no cell outside it |
| ServiceStats.Partition | pkg/controllers/service.go:217-241 | with `start >= end` returns `start` and changes nothing; otherwise returns `i` in `[start,end]` with the pivot value at `i`, everything in `[start,i)` below it and everything in `(i,end]` at or above it, the range permuted and every cell outside it untouched |
| ServiceStats.RangePermuted | pkg/controllers/service.go:217-241 | a permutation that leaves the cells outside `[start,end]` alone permutes that range |
| ServiceStats.WithinIsPermutation | pkg/controllers/service.go:217-241 | permuting a range permutes the whole array |
| ServiceStats.SplitKept | pkg/controllers/service.go:205-212 | permuting inside `[start,end]` keeps the splits at the range's ends |
| ServiceStats.SplitAround | pkg/controllers/service.go:205-212 | a partitioned range inside two splits leaves splits on both sides of its pivot |
| ServiceStats.Narrowed | pkg/controllers/service.go:206-211 | narrowing to the side of `mid` that holds `p` keeps `p` inside a range bounded by splits |
| ServiceStats.Repartitioned | pkg/controllers/service.go:205 | repartitioning the narrowed range restores the search invariant and keeps the multiset |
| ServiceStats.Narrow | pkg/controllers/service.go:205-212 | one iteration of the percentile loop strictly shrinks the range, keeps `p` in it and keeps the multiset, so the loop terminates |
| ServiceStats.FindPercentile | pkg/controllers/service.go:200-215 | permutes the array in place and returns its `p`-th smallest value for `p = ceil((n-1)/100·percentile)` |
| ServiceStats.SumIntsPermutation | pkg/controllers/service.go:172-183 | reordering the samples keeps their sum |
| ServiceStats.ServiceMetrics.constructor | pkg/controllers/service.go:165-168 | the accumulator starts empty with sum 0 |
| ServiceStats.ServiceMetrics.Add | pkg/controllers/service.go:170-173 | appends the sample and keeps `sum` equal to the array's sum |
| ServiceStats.ServiceMetrics.GetMetrics | pkg/controllers/service.go:175-185 | zeros for an empty array; otherwise the mean `sum/len` and the 50th, 90th and 99th percentiles of the samples, the array being left a permutation of itself |
| ServiceStats.Percentiles | pkg/controllers/service.go:181-183 | the three successive findPercentile calls each return the percentile of the original samples, though each reorders the array |
| ServiceStats.CountsAgree | pkg/controllers/service.go:181-183 | a rank in a permutation of the samples is a rank in the samples |
| ServiceStats.IsPodBindSuccess | pkg/controllers/service.go:187-198 | false for an empty node name; otherwise true exactly when no condition has reason Unschedulable or is PodScheduled with status False |
| Common.Trunc | pkg/core/node.go:210 | Go's `int(x)`: the floor for non-negative `x`, truncation toward zero otherwise |
| Common.TruncMonotone | pkg/core/node.go:210 | truncation never reverses the order of two values |
| Common.SumSlots | pkg/core/batchpod.go:49-52 | the slot-summing loop computes the slots' sum |
| Heap.Swap | pkg/controllers/deployer.go:35-39 | the `Swap` of `heap.Interface` that container/heap calls: exchanges exactly two cells and keeps the multiset |
| Heap.Up | pkg/controllers/deployer.go:98 | container/heap's `up` (standard library code, reached through `heap.Push`): reorders the slice without changing its contents |
| Heap.Down | pkg/controllers/deployer.go:68 | container/heap's `down` (standard library code, reached through `heap.Pop`): reorders only the first `n` cells, without changing the contents |
| Heap.Push | pkg/controllers/deployer.go:41-43 | container/heap's `Push`: the interface's `Push` appends, then `up`; one element is added |
| Heap.Pop | pkg/controllers/deployer.go:45-49 | container/heap's `Pop`: swap the root with the last cell, `down`, then the interface's `Pop` removes the last; one element is removed |
| Heap.UpRestoresHeap | pkg/pods/servicepod.go:139-141 | container/heap's `up` from the one cell out of order restores the `Less` order |
| Heap.PushKeepsHeap | pkg/controllers/deployer.go:31-43 | container/heap's `Push` onto a heap keeps it a heap and adds exactly the element pushed |
| Heap.DownRestoresHeap | pkg/pods/servicepod.go:139-141 | container/heap's `down` from the one cell out of order restores the order of the first `n` cells |
| Heap.RootIsLeast | pkg/controllers/deployer.go:31-33 | the root of a heap ordered by `Less` has the least key |
| Heap.PopReturnsRoot | pkg/controllers/deployer.go:45-49 | container/heap's `Pop` returns the root of a heap, whose key is least |
| Heap.PopLeavesHeap | pkg/controllers/deployer.go:45-49 | container/heap's `Pop` leaves the other elements, and they are in heap order |
| Heap.PopKeepsHeap | pkg/controllers/deployer.go:68 | container/heap's `Pop`, as the deployer calls it: returns the root, whose key is least, keeps the rest a heap and loses nothing else |
| Heap.HeapKeyIrrelevant | pkg/pods/servicepod.go:139-141 | heap order depends only on the keys `Less` compares |
| Deployer.EffectsSnoc | pkg/controllers/deployer.go:67-75 | the registrations of released timers are made in release order |
| Deployer.ReleaseDueStep | pkg/controllers/deployer.go:67-69 | while the root is due, Tick pops it and carries on with the rest |
| Deployer.ReleaseDueStop | pkg/controllers/deployer.go:67 | Tick stops at an empty heap or a root not yet due |
| Deployer.NoneDue | pkg/controllers/deployer.go:67 | when the root is not due nothing is released and the heap stays as it is |
| Deployer.ConsSplits | pkg/controllers/deployer.go:67-69 | releasing the least due timer before the release of the rest keeps the release in tick order |
| Deployer.ReleaseDueSplits | pkg/controllers/deployer.go:66-76 | Tick's loop releases exactly the timers due, in non-decreasing tick order, keeps every later timer queued as a heap and loses none |
| Deployer.DeployAtOf | pkg/controllers/deployer.go:87-99 | a timer for a tick below the current one is ignored; otherwise it is pushed, the heap order is kept, and no booked timer is ever before the counter |
| Deployer.TickReleasesOnTime | pkg/controllers/deployer.go:66-78 | with the counter advancing, each tick releases exactly the timers booked for that tick, leaves the others queued and keeps the heap and the no-overdue invariant |
| Deployer.ReleasedFrom | pkg/controllers/deployer.go:67-69 | every released timer was queued |
| Deployer.DueReleased | pkg/controllers/deployer.go:67-69 | every queued timer that is due is released |
| Deployer.NotDueLeft | pkg/controllers/deployer.go:67 | every queued timer not yet due stays queued |
| Deployer.TickAsWrittenStalls | pkg/controllers/deployer.go:66-77 | as written, the tick counter never moves, so a timer booked for a later tick stays queued through any number of ticks |
| Deployer.TickAsWrittenParts | pkg/controllers/deployer.go:66-78 | as written, a tick releases what is due but leaves the counter where it was |
| Deployer.ProgressStep | pkg/controllers/deployer.go:67-69 | each iteration of the release loop pops the next due timer of the reference release |
| Deployer.ProgressEnd | pkg/controllers/deployer.go:67 | when the loop stops it has released exactly the reference release |
| Deployer.OneTimer | pkg/controllers/deployer.go:66-99 | a single timer pushed on an empty queue is released exactly when due and makes its one registration |
| Deployer.PopDue | pkg/controllers/deployer.go:67-69 | pops a due timer and keeps the heap |
| Deployer.Register | pkg/controllers/deployer.go:70-74 | a released BeforeUpdate timer registers before the update, an AfterUpdate timer after it, and any other phase is dropped |
| Deployer.ReleaseLoop | pkg/controllers/deployer.go:67-75 | the loop leaves the reference remainder queued and makes the registrations of the reference release, in order |
| Deployer.ControllerDeployer.constructor | pkg/controllers/deployer.go:51-58 | the deployer starts at tick 0 with no timers |
| Deployer.ControllerDeployer.DeployAt | pkg/controllers/deployer.go:87-99 | the new state is the reference DeployAt of the old |
| Deployer.ControllerDeployer.Tick | pkg/controllers/deployer.go:66-78 | as written (value receiver): releases what is due and makes its registrations, but the counter is not advanced |
| Deployer.ControllerDeployer.TickCounted | pkg/controllers/deployer.go:66-78 | as the doc comment intends: releases what is due and advances the counter by one |
| Deployer.BookedForTickOne | pkg/controllers/deployer.go:66-99 | a controller booked for tick 1 is never registered by two ticks as written, and is registered before the update by the intended ticks |
| MessageQueue.Deliveries | pkg/util/messagequeue.go:110-114 | one delivery of the event to each listener, in list order |
| MessageQueue.DeleteSet | pkg/util/messagequeue.go:94-98 | the delete set holds exactly the channels named |
| MessageQueue.CutCounts | pkg/util/messagequeue.go:100-109 | cutting off the swapped-back tail removes exactly the deleted channels |
| MessageQueue.SwapDelete | pkg/util/messagequeue.go:92-109 | the swap-delete loop removes every listener in the delete set and keeps every other listener as often as before, order aside |
| MessageQueue.Worker.constructor | pkg/util/messagequeue.go:84-85 | a worker starts running with no listeners |
| MessageQueue.Worker.Add | pkg/util/messagequeue.go:90-91 | appends the listener at the end |
| MessageQueue.Worker.Delete | pkg/util/messagequeue.go:92-109 | removes exactly the listeners named and keeps the others |
| MessageQueue.Worker.Inform | pkg/util/messagequeue.go:110-114 | delivers the event once to each listener, in list order |
| MessageQueue.Worker.Shutdown | pkg/util/messagequeue.go:115-119 | closes every listener in order and stops the worker |
| MessageQueue.Worker.Serve | pkg/util/messagequeue.go:86-121 | dispatches each operation kind to its effect and nothing else |
| MessageQueue.Queue.constructor | pkg/util/messagequeue.go:24-29 | the queue starts with no topics |
| MessageQueue.Queue.NewTopic | pkg/util/messagequeue.go:71-82 | always succeeds; creates a fresh worker only for an absent topic, so it is idempotent |
| MessageQueue.Queue.Publish | pkg/util/messagequeue.go:136-147 | an unknown topic is an error; otherwise the topic's listeners each receive the event; every worker keeps its listeners and closed channels, and the other topics' deliveries are unchanged |
| MessageQueue.Queue.Subscribe | pkg/util/messagequeue.go:125-134 | an unknown topic is an error; otherwise a new watcher of the topic with no channels |
| MessageQueue.Queue.Shutdown | pkg/util/messagequeue.go:42-55 | every worker is shut down, closing its listeners, and the dispatcher map is left empty |
| MessageQueue.Watcher.constructor | pkg/util/messagequeue.go:129-133 | a watcher starts with no channels |
| MessageQueue.Watcher.ResultChan | pkg/util/messagequeue.go:149-182 | registers one new channel with the topic's worker and records it in the watcher; the worker's deliveries and closed channels are unchanged |
| MessageQueue.Watcher.Stop | pkg/util/messagequeue.go:159-176 | removes exactly the watcher's channels from the topic's listeners; the worker keeps running and its deliveries and closed channels are unchanged |
| Queue.Pos | pkg/util/ringqueue.go:42-65 | moving along the ring stays on the ring |
| Queue.PosDistinct | pkg/util/ringqueue.go:42 | distinct offsets under a full turn are distinct cells |
| Queue.FullWhenMeet | pkg/util/ringqueue.go:48 | `head == tail` with values queued means the ring is full |
| Queue.GrowHolds | pkg/util/ringqueue.go:48-53 | growing splices `size` empty cells between the newest and the oldest values and keeps them in FIFO order, with `head` on the first new cell |
| Queue.PushHolds | pkg/util/ringqueue.go:54-56 | writing at `head` appends the value to the queue |
| Queue.PopHolds | pkg/util/ringqueue.go:63-66 | clearing the cell at `tail` and moving on drops the oldest value |
| Queue.RingQueue.constructor | pkg/util/ringqueue.go:22-29 | a new queue on a ring of `initSize` cells is empty |
| Queue.RingQueue.Len | pkg/util/ringqueue.go:70-72 | the number of values queued |
| Queue.RingQueue.Grow | pkg/util/ringqueue.go:48-53 | a full ring doubles, keeping the values and their order, and has room afterwards |
| Queue.RingQueue.Offer | pkg/util/ringqueue.go:47-57 | appends the value at the back, doubling the ring exactly when it was full |
| Queue.RingQueue.Poll | pkg/util/ringqueue.go:59-68 | an empty queue returns nil and nothing changes; otherwise returns the oldest value, removes it and clears its cell |
| Queue.RingQueue.Do | pkg/util/ringqueue.go:41-45 | as written: visits the cells from `tail` up to `head`, which is every value oldest first except on a full ring, where nothing is visited |
| Queue.RingQueue.DoAll | pkg/util/ringqueue.go:41-45 | as intended: visits every value, oldest first |
| Queue.DoMissesFullRing | pkg/util/ringqueue.go:22-57 | a one-cell queue holding one value visits nothing with Do, while the corrected visit finds the value |
| SchedSim.FirstIndex | pkg/core/schedsim.go:294-297 | the search stops at the first occurrence of the controller |
| SchedSim.RemoveFirst | pkg/core/schedsim.go:294-302 | an absent controller leaves the list unchanged; otherwise its first occurrence goes, the length drops by one, the others are kept as a multiset, the last element moves into the removed one's slot and no other slot changes |
| SchedSim.PodKey | pkg/core/schedsim.go:100-110 | pods of either kind are keyed by their name; any other object is the error "error getting key from ..." |
| SchedSim.NodeKey | pkg/core/schedsim.go:111-119 | nodes of either kind are keyed by their name; any other object is the same error |
| SchedSim.KeysApart | pkg/core/schedsim.go:100-119 | no object has both a pod key and a node key, and keying a simulator pod finds it in a store keyed by name |
| SchedSim.Simulator.constructor | pkg/core/schedsim.go:56-76 | both controller lists start empty over the given pod store |
| SchedSim.Simulator.GetPod | pkg/core/schedsim.go:88-97 | the stored pod for a known name, and the error "No pod <name>" otherwise |
| SchedSim.Simulator.RegisterController | pkg/core/schedsim.go:275-282 | appends to the before-update list for timing 1 and to the after-update list for timing 2, ignoring any other timing |
| SchedSim.Simulator.RegisterBeforeUpdateController | pkg/core/schedsim.go:259-261 | appends to the before-update list only |
| SchedSim.Simulator.RegisterAfterUpdateController | pkg/core/schedsim.go:263-265 | appends to the after-update list only |
| SchedSim.Simulator.DeleteController | pkg/core/schedsim.go:284-303 | removes the first occurrence from the timing's list by swap-with-last (RemovedFirst: the last controller moves into its slot, every other slot keeps its controller; an absent one changes nothing), leaving the other list alone |
| SchedSim.ApplyRegistrations | pkg/controllers/deployer.go:70-74 | the deployer's registrations, made in order, append their controllers to the matching list in call order |

## Left out

- Informers, the client stubs, the simulator's wiring, `Run` and its wall-clock wait, the fork-join pool, printing and logging. These are concurrency, library plumbing or I/O.
- Calls into `kubernetes.Interface` (`UpdateStatus`, `Delete`, `Terminate`): recorded as effect values; the API server behind them is not modelled.
- The map iteration order of a node tick is an `order` parameter: any duplicate-free listing of the pod names, chosen by the caller.
- `deletingPods` of the node in `pkg/core/node.go` is modelled as an initialised map; the client code that builds a node never initialises it, and a graceful delete would panic on the nil map.
- `PeriodMetrics` carries the `*LastTick` fields that `pkg/metrics/aggregator.go:57,62,67` assign; the type in `pkg/metrics/types.go` lacks them.
- `PodAlgorithm` is taken as one interface with `ResourceRequest`, `Tick` and `Terminate`, with `int` memory; the source is between two versions of it.
- The `core` package's own CPU scheduler, named from `pkg/core/node.go:23`, is not part of this model; the node tick takes the schedule as the `pkg/simulate` scheduler computes it.
- Nodes assume `coreCount > 0` and `memSize > 0`, where Go would divide by zero and produce infinities; the node's run of its ready pods also assumes its CPU state has `coreCount` cells.
- The service pod's free-CPU heap holds records by value with the CPU index in place of the Go `*freeCpu` reference; the loop adding up `memRequired` (`pkg/pods/servicepod.go:171-175`) computes a value nothing reads and is left out; `OnDone` callbacks are the list of requests served.
- ServicePod.ServicePod.Tick: requires `mem > 0` and, once initialised, a positive slot sum, where Go's `Load` would divide by zero.
- ServiceStats.Partition: requires the pivot position to lie inside `[start, end]` whenever `start < end`, which every caller in the source meets.
- The latency accumulator's growable slice is a `seq`. The `uint8` conversion in the service controller's `onDone` (`pkg/controllers/service.go:159`), which wraps latencies above 255, lies outside this model, because `onDone` does.
- The metrics ring queue is modelled on values (a datatype the operations return), not as a class in place.
- MessageQueue: channels are identities and a send on one is a recorded delivery; the buffer of 16, blocking sends, the goroutine per topic and its locking are left out, so each operation takes effect when it is called.
- MessageQueue.Watcher.ResultChan, MessageQueue.Watcher.Stop: require the watcher's topic to exist; in Go a send to a shut-down topic's worker blocks forever.
- The controller deployer's simulator field is never set in the source; the model records its registration calls, and `SchedSim.ApplyRegistrations` carries them out on a simulator.
- Queue: the ring's cells are positions in a sequence; the Go linked ring nodes and their aliasing are not modelled.
- SchedSim.Simulator.GetPod: the store's own error path (`pkg/core/schedsim.go:93-95`) is left out, since the map-backed store never fails.
- Queue.RingQueue.constructor: requires `initSize > 0`; Go's `ring.New(0)` returns nil and a later `Offer` would panic. Every caller in the source passes 10.
- SchedSim.Simulator.DeleteController: requires a valid timing; Go panics on any other.
- `PriorityClassKeyFucn` (`pkg/core/schedsim.go:120-126`) serves an object type outside the model.
- SchedSim.PodKey: the second `*v1.Pod` case in `PodKeyFunc` can never be reached and has no counterpart.
- IEEE floating-point rounding, NaN and infinities: the model's arithmetic is exact.

## Findings

| source | as written | input that shows it | evidently intended | confidence | as-written member | corrected member |
|---|---|---|---|---|---|---|
| pkg/util/ringqueue.go:41-45 | `Do` walks from `tail` until it meets `head`, and on a full ring they are equal before the first step | `NewRingQueue(1)` then `Offer(x)`: `Do` visits nothing | visit every queued value, oldest first | not executed | Queue.RingQueue.Do, Queue.DoMissesFullRing | Queue.RingQueue.DoAll |
| pkg/controllers/deployer.go:66-78 | `Tick` and `DeployAt` have value receivers, so `c.tick++` is lost and the counter stays 0 | `DeployAt(c, 1, BeforeUpdate)` then two `Tick` calls: `c` is never registered | the counter advances by one per tick as the comment at lines 9-10 says, so `c` is registered on the second tick | not executed | Deployer.ControllerDeployer.Tick, Deployer.TickAsWrittenStalls, Deployer.BookedForTickOne | Deployer.ControllerDeployer.TickCounted, Deployer.TickReleasesOnTime |
