# Verification of the message queue, its models and its log analyzer

Dafny models of the parts of the repository where a mistake is hard to see, and proofs of what they promise.
`dafny verify dfyconfig.toml` checks everything.

## What is modelled

**Mean value analysis.** `MvaModel` says what one iteration does to the stations of a closed network; `MvaSolver`
has the stations and the solver that do it in place, and is proved against it. `MvaInvariants` holds what is true for
any visits; `MvaProductForm` proves, over the truncated power series of `Series`, that the recursion computes the
product-form distribution; `MvaClamps` says when clamping starts and capacities are exceeded. `StableModel` and
`StableMva` are the decimal version, whose arrays are null above the current population; `LearnGanz` and
`LearnGanzSolver` are the third solver.

**Closed forms.** `ClosedForm`: M/M/m and M/M/m/B, with the factorial as it is coded.

**Broker.** `Broker` is one reactor and any number of workers as interleaved steps over pooled buffers and two bounded
queues; `BrokerInvariant`, `BrokerSteps` and `BrokerSafety` prove what all runs keep; `BrokerObjects` has the classes,
whose methods are tied to those steps; `BrokerProgress` says when a request is dropped, and that it need not be. `Bags`
counts references.

**Messages.** `MessageStore` is the message table under interleaved two-statement dequeues, `ConnectionPool` the pool
of database connections, `PairedConversation` the two clients that exchange numbers; `Conversation` says which numbers
these are, and `Strangers` what others can do to them.

**Wire format.** `Codec` and `Messages` are the format on values, `Buffers`, `MessageBuffers` and `MessageReading` the
code that moves a position over a buffer, `WireBytes` the literal bytes, `Framing` and `ClientConnection` both ends of
a connection.

**Log analysis.** `LogBuckets` and `LogAnalyzer`.

## Where the code differs from what it says

- `factorial` multiplies by m in every round; it is the factorial only up to 2. The closed forms hold all the same.
- The total that is announced to be 1 for a bounded queue leaves out its last state.
- A load-dependent station ignores its visit ratio when it updates its probabilities. The product form therefore needs
  visits 1 there: with one client the entry for one job is the visit-weighted one if and only if they are 1. Customers
  are conserved, among networks with all these visits on one side of 1, if and only if they are 1. The capacity bound
  holds for any visits until P[0] is cut off at 0; with one server it is exceeded exactly when that clamp fires. With
  visits 1 no clamp fires. `main/OverallSystem.java:31` uses visits below 1 at such stations.
- The paired requester takes any message in its context for the response. A stranger's message in an issued context
  misleads it if and only if the requester waits for that context and expects another number.
- With no station of positive utilisation, `calcBottleneck` runs into null.
- A request whose first bytes of payload arrive before the rest is never received, because looking at the length moves
  the position.

## Model

| member | source | states |
|---|---|---|
| MvaProductForm.ThroughputInRun | code/mean_value_analysis/src/ch/ethz/mlmq/lukaselmer/mean_value_analyzer/solver/MeanValueAnalyzer.java:20-50 | Product form: for visits 1 at load-dependent stations, the throughput computed for n clients is G(n-1)/G(n), G being the convolution of all stations' weights with the think time, and G(n) > 0 |
| MvaProductForm.ProbabilityInRun | code/mean_value_analysis/src/ch/ethz/mlmq/lukaselmer/mean_value_analyzer/queue/Queue.java:49-71 | Product form: the probability of j jobs at a load-dependent station is F(j) * G_without(n-j) / G(n) |
| MvaProductForm.QueueLengthInRun | code/mean_value_analysis/src/ch/ethz/mlmq/lukaselmer/mean_value_analyzer/queue/Queue.java:69-69 | Product form: the mean queue length of the other stations is the one of the product-form distribution |
| MvaProductForm.ConstantsConvolve | code/mean_value_analysis/src/ch/ethz/mlmq/lukaselmer/mean_value_analyzer/queue/Queue.java:28-71 | The normalisation constants split at any station: G is the convolution of its weights and the constants of the network without it |
| MvaProductForm.RunInProductForm | code/mean_value_analysis/src/ch/ethz/mlmq/lukaselmer/mean_value_analyzer/solver/MeanValueAnalyzer.java:20-50 | Every iteration of the population loop keeps all stations in product form |
| MvaProductForm.NoClampFires | code/mean_value_analysis/src/ch/ethz/mlmq/lukaselmer/mean_value_analyzer/queue/Queue.java:53-65 | With visits 1 neither clamp changes anything, and P[0] stays positive exactly unless the station is the whole network |
| MvaProductForm.RunProbabilitiesSum | code/mean_value_analysis/src/ch/ethz/mlmq/lukaselmer/mean_value_analyzer/queue/Queue.java:57-66 | With visits 1 the probabilities of a load-dependent station sum to exactly 1 after every n |
| MvaProductForm.ThroughputWithinCapacity | code/mean_value_analysis/src/ch/ethz/mlmq/lukaselmer/mean_value_analyzer/queue/Queue.java:41-66 | With visits 1 at load-dependent stations the throughput never exceeds servers / service time, and not even the part of it that the station is busy |
| MvaInvariants.UpdateKeepsDistribution | code/mean_value_analysis/src/ch/ethz/mlmq/lukaselmer/mean_value_analyzer/queue/Queue.java:49-66 | An update leaves non-negative entries that sum to 1 or a P[0] of 0, for any throughput and visits |
| MvaInvariants.RunKeepsDistributions | code/mean_value_analysis/src/ch/ethz/mlmq/lukaselmer/mean_value_analyzer/solver/MeanValueAnalyzer.java:20-50 | So does every run, for any visits, with non-negative queue lengths |
| MvaInvariants.ClampIsForever | code/mean_value_analysis/src/ch/ethz/mlmq/lukaselmer/mean_value_analyzer/queue/Queue.java:61-66 | A P[0] of 0 stays 0 for every later population |
| MvaInvariants.LittlesLaw | code/mean_value_analysis/src/ch/ethz/mlmq/lukaselmer/mean_value_analyzer/queue/Queue.java:28-66 | Little's law: the jobs that the descending update yields are throughput times the response time summed before it |
| MvaInvariants.IterationCountsCustomers | code/mean_value_analysis/src/ch/ethz/mlmq/lukaselmer/mean_value_analyzer/solver/MeanValueAnalyzer.java:20-50 | After an iteration thinking plus waiting customers are n, up to what load-dependent stations with visits other than 1 do not account for |
| MvaInvariants.RunCountsCustomers | code/mean_value_analysis/src/ch/ethz/mlmq/lukaselmer/mean_value_analyzer/solver/MeanValueAnalyzer.java:20-50 | The same for a whole run |
| MvaInvariants.ConservedIff | code/mean_value_analysis/src/ch/ethz/mlmq/lukaselmer/mean_value_analyzer/solver/MeanValueAnalyzer.java:20-50 | Customers are conserved if and only if that unaccounted part is 0 |
| MvaInvariants.ConservationOfCustomers | code/mean_value_analysis/src/ch/ethz/mlmq/lukaselmer/mean_value_analyzer/solver/MeanValueAnalyzer.java:20-50 | If the visits of all load-dependent stations lie on one side of 1, customers are conserved if and only if they are all 1; below 1 the solver counts more than n customers, above 1 fewer |
| MvaInvariants.UtilisationLaw | code/mean_value_analysis/src/ch/ethz/mlmq/lukaselmer/mean_value_analyzer/queue/Queue.java:41-66 | While the probabilities sum to 1 before the step, the throughput is the sum of mu(j) * P[j] after it |
| MvaInvariants.CapacityBound | code/mean_value_analysis/src/ch/ethz/mlmq/lukaselmer/mean_value_analyzer/queue/Queue.java:41-66 | Hence the throughput is at most servers / service time * (1 - P[0]) |
| MvaInvariants.CyclePositive | code/mean_value_analysis/src/ch/ethz/mlmq/lukaselmer/mean_value_analyzer/solver/MeanValueAnalyzer.java:31-32 | The divisor of the throughput is positive in every run |
| MvaClamps.FirstClampIff | code/mean_value_analysis/src/ch/ethz/mlmq/lukaselmer/mean_value_analyzer/queue/Queue.java:52-66 | For any visits, with one client a clamp fires if and only if the service time exceeds the whole cycle |
| MvaClamps.CapacityUnlessClamped | code/mean_value_analysis/src/ch/ethz/mlmq/lukaselmer/mean_value_analyzer/queue/Queue.java:41-66 | For any visits, servers and population, P[0] positive before: the throughput is within the capacity, and the busy part of it, unless a clamp fires; throughput above it makes P[0] 0 |
| MvaClamps.RunUtilisation | code/mean_value_analysis/src/ch/ethz/mlmq/lukaselmer/mean_value_analyzer/queue/Queue.java:41-66 | For any visits, P[0] positive before: the throughput of a run is the mean rate at which the station serves |
| MvaClamps.CapacityExceededIff | code/mean_value_analysis/src/ch/ethz/mlmq/lukaselmer/mean_value_analyzer/queue/Queue.java:57-66 | One server, any visits and population, P[0] positive before: the throughput exceeds the capacity if and only if the clamp fires |
| MvaClamps.CapacityExceededByMass | code/mean_value_analysis/src/ch/ethz/mlmq/lukaselmer/mean_value_analyzer/queue/Queue.java:51-66 | One server, also after a clamp: the throughput exceeds the capacity if and only if the entries above 0 sum to more than all entries did before |
| MvaClamps.FirstExceedsIff | code/mean_value_analysis/src/ch/ethz/mlmq/lukaselmer/mean_value_analyzer/solver/MeanValueAnalyzer.java:20-50 | For any visits and servers, the first client exceeds a capacity if and only if the service time exceeds servers times the whole cycle |
| MvaClamps.FirstEntryIff | code/mean_value_analysis/src/ch/ethz/mlmq/lukaselmer/mean_value_analyzer/queue/Queue.java:52-52 | With one client the entry for one job is demand / cycle time, as product form has it, if and only if the visits of that station are 1 |
| MvaClamps.FirstConservedIff | code/mean_value_analysis/src/ch/ethz/mlmq/lukaselmer/mean_value_analyzer/solver/MeanValueAnalyzer.java:20-50 | For any visits, also on both sides of 1: the first client is conserved if and only if the sum of (1 - visits) * service time over load-dependent stations is 0 |
| MvaClamps.HalfVisitsExceedCapacity | code/mean_value_analysis/src/ch/ethz/mlmq/lukaselmer/mean_value_analyzer/queue/Queue.java:52-52 | A station visited half the time: the throughput exceeds its capacity and P[0] is cut off at 0 |
| MvaSolver.Queue.constructor | code/mean_value_analysis/src/ch/ethz/mlmq/lukaselmer/mean_value_analyzer/queue/Queue.java:15-26 | A new station: P[0] = 1, the rest 0, response time the service time |
| MvaSolver.Queue.GetMu | code/mean_value_analysis/src/ch/ethz/mlmq/lukaselmer/mean_value_analyzer/queue/Queue.java:41-47 | The service rate with i jobs |
| MvaSolver.Queue.UpdateResponseTime | code/mean_value_analysis/src/ch/ethz/mlmq/lukaselmer/mean_value_analyzer/queue/Queue.java:28-39 | Response time as specified, for all three kinds; nothing else changes |
| MvaSolver.Queue.ShiftProbabilities | code/mean_value_analysis/src/ch/ethz/mlmq/lukaselmer/mean_value_analyzer/queue/Queue.java:51-56 | The descending loop in place computes all new entries from old ones |
| MvaSolver.Queue.UpdateQueueLength | code/mean_value_analysis/src/ch/ethz/mlmq/lukaselmer/mean_value_analyzer/queue/Queue.java:49-71 | The whole new state, with both clamps |
| MvaSolver.MeanValueAnalyzer.UpdateResponseTimes | code/mean_value_analysis/src/ch/ethz/mlmq/lukaselmer/mean_value_analyzer/solver/MeanValueAnalyzer.java:23-29 | Every station responds; the total weights by visits |
| MvaSolver.MeanValueAnalyzer.UpdateQueueLengths | code/mean_value_analysis/src/ch/ethz/mlmq/lukaselmer/mean_value_analyzer/solver/MeanValueAnalyzer.java:41-44 | Every station takes over the throughput |
| MvaSolver.MeanValueAnalyzer.Iterate | code/mean_value_analysis/src/ch/ethz/mlmq/lukaselmer/mean_value_analyzer/solver/MeanValueAnalyzer.java:21-44 | One round is one iteration of the specified run |
| MvaSolver.MeanValueAnalyzer.CalculateNetwork | code/mean_value_analysis/src/ch/ethz/mlmq/lukaselmer/mean_value_analyzer/solver/MeanValueAnalyzer.java:20-50 | The solver leaves the state of the specified run; it prints the r with throughput * (Z + r) = n, or 1000 times the throughput, and finds the bottleneck if asked to |
| MvaSolver.PrintedInProductForm | code/mean_value_analysis/src/ch/ethz/mlmq/lukaselmer/mean_value_analyzer/solver/MeanValueAnalyzer.java:34-39 | With load-dependent visits of 1 the printed number is n G(n) / G(n-1) - Z if response times are asked for, and 1000 G(n-1) / G(n) if not |
| MvaSolver.MeanValueAnalyzer.CalcBottleneck | code/mean_value_analysis/src/ch/ethz/mlmq/lukaselmer/mean_value_analyzer/solver/MeanValueAnalyzer.java:56-81 | The first station of highest positive utilisation; none, where the code runs into null, only if no utilisation is positive |
| MvaModel.BottleneckIsLargestDemand | code/mean_value_analysis/src/ch/ethz/mlmq/lukaselmer/mean_value_analyzer/solver/MeanValueAnalyzer.java:56-81 | The bottleneck is the first station of largest visits * service time, whatever the throughput; there is none exactly if no such product is positive |
| StableModel.StableRun | code/mean_value_analysis_stable/src/ch/ethz/mlmq/lukaselmer/mean_value_analyzer/solver/MeanValueAnalyzer.java:22-53 | Definedness: whatever the rounding, every iteration leaves exactly the entries 0..n present, and a distribution or a P[0] of 0, so that the next one reads no null |
| StableModel.RunMirrors | code/mean_value_analysis_stable/src/ch/ethz/mlmq/lukaselmer/mean_value_analyzer/solver/MeanValueAnalyzer.java:22-53 | Without rounding the decimal solver has the state of the first solver after every population |
| StableModel.IterationReady | code/mean_value_analysis_stable/src/ch/ethz/mlmq/lukaselmer/mean_value_analyzer/solver/MeanValueAnalyzer.java:22-53 | One iteration leaves every station ready for the next population |
| StableModel.FreshMirrors | code/mean_value_analysis_stable/src/ch/ethz/mlmq/lukaselmer/mean_value_analyzer/queue/Queue.java:18-28 | A new station has one entry and nulls, and is ready |
| StableModel.UpdatedReady | code/mean_value_analysis_stable/src/ch/ethz/mlmq/lukaselmer/mean_value_analyzer/queue/Queue.java:51-73 | An update fills entry n, leaves nulls above, and keeps a distribution or a P[0] of 0 |
| StableModel.ExactTail | code/mean_value_analysis_stable/src/ch/ethz/mlmq/lukaselmer/mean_value_analyzer/queue/Queue.java:53-58 | Without rounding the update is the first solver's |
| StableModel.OnlyQuotientsAreRounded | code/mean_value_analysis_stable/src/ch/ethz/mlmq/lukaselmer/mean_value_analyzer/queue/Queue.java:30-58 | Where the service rates and the two quotients by them are already round, entries and response terms are the first solver's: nothing else is rounded |
| StableMva.StableQueue.UpdateResponseTime | code/mean_value_analysis_stable/src/ch/ethz/mlmq/lukaselmer/mean_value_analyzer/queue/Queue.java:30-41 | The specified rounded response time, reading only entries below n |
| StableMva.StableQueue.ShiftProbabilities | code/mean_value_analysis_stable/src/ch/ethz/mlmq/lukaselmer/mean_value_analyzer/queue/Queue.java:53-58 | The descending loop writes entry n, which was null, and reads none above n-1 |
| StableMva.StableQueue.UpdateQueueLength | code/mean_value_analysis_stable/src/ch/ethz/mlmq/lukaselmer/mean_value_analyzer/queue/Queue.java:51-73 | The whole new state of a station |
| StableMva.StableAnalyzer.CalculateNetwork | code/mean_value_analysis_stable/src/ch/ethz/mlmq/lukaselmer/mean_value_analyzer/solver/MeanValueAnalyzer.java:22-53 | The solver leaves the state of the specified rounded run, prints its last number and, if asked, finds the bottleneck |
| StableMva.PrintedFromStations | code/mean_value_analysis_stable/src/ch/ethz/mlmq/lukaselmer/mean_value_analyzer/solver/MeanValueAnalyzer.java:35-41 | Whatever the rounding, both numbers follow from the response times that the stations are left with |
| StableMva.PrintsSame | code/mean_value_analysis_stable/src/ch/ethz/mlmq/lukaselmer/mean_value_analyzer/solver/MeanValueAnalyzer.java:22-53 | Without rounding the throughput and the printed number are those of the first solver |
| StableMva.StableAnalyzer.CalcBottleneck | code/mean_value_analysis_stable/src/ch/ethz/mlmq/lukaselmer/mean_value_analyzer/solver/MeanValueAnalyzer.java:59-84 | The first station of highest positive utilisation; none, where the code runs into null, only if no utilisation is positive |
| LearnGanz.ProbabilitiesSumToOne | code/systemmodel/src/ch/ethz/mlmq/model/LearnGanz.java:178-208 | The probabilities of every queue sum to exactly 1 after every n, whatever the divisions round to, and those above n are still 0 |
| LearnGanz.SolversAgree | code/systemmodel/src/ch/ethz/mlmq/model/LearnGanz.java:144-208 | With exact division this program and the first solver compute the same probabilities and queue lengths for every population, for queues of all kinds, load-dependent ones visited once |
| LearnGanz.RateAgrees | code/systemmodel/src/ch/ethz/mlmq/model/queue/QueueMMm.java:17-24 | A queue's rate is that of a station whose service time is divided by the queue's multiplicity |
| LearnGanzSolver.CalculateResponseTime | code/systemmodel/src/ch/ethz/mlmq/model/LearnGanz.java:302-329 | Response time of a queue, as specified |
| LearnGanzSolver.UpdateProbabilities | code/systemmodel/src/ch/ethz/mlmq/model/LearnGanz.java:181-200 | The descending loop and the new first entry, in place |
| LearnGanzSolver.InitializeMVA | code/systemmodel/src/ch/ethz/mlmq/model/LearnGanz.java:286-300 | Zero queues, and certainty of no job |
| LearnGanzSolver.Respond | code/systemmodel/src/ch/ethz/mlmq/model/LearnGanz.java:154-173 | Response times, their total, and the throughput |
| LearnGanzSolver.UpdateQueues | code/systemmodel/src/ch/ethz/mlmq/model/LearnGanz.java:175-208 | Every queue takes over the throughput |
| LearnGanzSolver.PerformMVA | code/systemmodel/src/ch/ethz/mlmq/model/LearnGanz.java:129-208 | The arrays end as the specified run says; each list sums to 1 |
| ClosedForm.BoundedNormalisation | code/systemmodel/src/ch/ethz/mlmq/model/queue/QueueMMmB.java:39-103 | M/M/m/B: the denominator of p_0 exceeds 1, and p_0..p_B sum to exactly 1 across both branches, for rho other than 1 |
| ClosedForm.UnboundedTail | code/systemmodel/src/ch/ethz/mlmq/model/queue/QueueMMm.java:32-97 | M/M/m: p_0..p_n sum to 1 - rho^(n+1-m) * C, and C, the probability of queueing, is the complement of fewer than m jobs |
| ClosedForm.PartialSums | code/systemmodel/src/ch/ethz/mlmq/model/queue/QueueMMmB.java:76-103 | Both: from m-1 jobs on, what is missing to 1 is the geometric rest |
| ClosedForm.BelowFull | code/systemmodel/src/ch/ethz/mlmq/model/queue/QueueMMmB.java:85-92 | The probability of fewer than m jobs, from the accumulated summands |
| ClosedForm.DenominatorPositive | code/systemmodel/src/ch/ethz/mlmq/model/queue/QueueMMmB.java:55-74 | The denominator exceeds 1, also for rho above 1 |
| ClosedForm.SingleServerFormula | code/systemmodel/src/ch/ethz/mlmq/model/queue/QueueMMmB.java:39-53 | The separate formula for one server agrees with the general one |
| ClosedForm.GetProbabilityZeroJobsInSystemGeneral | code/systemmodel/src/ch/ethz/mlmq/model/queue/QueueMMmB.java:55-74 | The accumulating loop computes the p_0 that the identities below and the normalisation fix |
| ClosedForm.BelowFullRatio | code/systemmodel/src/ch/ethz/mlmq/model/queue/QueueMMmB.java:76-103 | For 1 <= n < m: p_n * n^(n-1) = (lambda s)^n * p_0 |
| ClosedForm.FullRatio | code/systemmodel/src/ch/ethz/mlmq/model/queue/QueueMMmB.java:76-103 | For n >= m: p_n * m^(m-1) * m^(n-m) = (lambda s)^n * p_0 |
| ClosedForm.EvaluatedTotal | code/systemmodel/src/ch/ethz/mlmq/model/LearnGanz.java:114-121 | The total that is printed for a bounded queue as one that should be 1 is 1 - p_B, less than 1 |
| ClosedForm.Factorial | code/systemmodel/src/ch/ethz/mlmq/model/queue/Queue.java:68-76 | The loop called factorial computes m^(m-1) |
| ClosedForm.CodedFactorialIff | code/systemmodel/src/ch/ethz/mlmq/model/queue/Queue.java:68-76 | That is the factorial if and only if m is at most 2 |
| ClosedForm.ProbabilityPositive | code/systemmodel/src/ch/ethz/mlmq/model/queue/QueueMMmB.java:76-103 | Every probability is positive |
| BrokerSafety.SingleOwner | code/mlmq/src/ch/ethz/mlmq/nio/BrokerNetworkInterface.java:174-319 | In every reachable state of reactor and workers, a buffer is at one place only: pool, a connection's rx or tx, a queued task, a worker's hands, or lost; so none is ever released twice |
| BrokerSafety.EveryBufferSomewhere | code/mlmq/src/ch/ethz/mlmq/nio/ByteBufferPool.java:24-36 | Conservation: a buffer is at some place if and only if it has been allocated |
| BrokerSafety.NoMissingBuffer | code/mlmq/src/ch/ethz/mlmq/server/processing/Worker.java:76-105 | No thread ever finds a buffer missing where it takes one |
| BrokerSafety.InterestMeansUnsent | code/mlmq/src/ch/ethz/mlmq/nio/ConnectedClient.java:108-140 | Write interest is on exactly while an unsent response to a request of that connection is in its transmit buffer |
| BrokerSafety.ResponseReachesAsker | code/mlmq/src/ch/ethz/mlmq/nio/BrokerNetworkInterface.java:193-215 | A delivered response answers a request that was read from this very handle and neither answered nor dropped before; other connections are untouched |
| BrokerSafety.HandleIsFresh | code/mlmq/src/ch/ethz/mlmq/nio/BrokerNetworkInterface.java:284-304 | A new connection's handle occurs in nothing older, so that no late response reaches it |
| BrokerSafety.AnswersBoundedByRequests | code/mlmq/src/ch/ethz/mlmq/nio/BrokerNetworkInterface.java:193-319 | Every request is in flight, answered or dropped, once; no handle gets more responses than it sent requests |
| BrokerSafety.LostForever | code/mlmq/src/ch/ethz/mlmq/nio/BrokerNetworkInterface.java:306-319 | A buffer dropped by a full queue, a failed decoding or an overflow never returns |
| BrokerSafety.StepKeeps | code/mlmq/src/ch/ethz/mlmq/nio/BrokerNetworkInterface.java:134-172 | Every step of every thread keeps ownership, contents, accounting and queue bounds |
| BrokerSafety.InitialInv | code/mlmq/src/ch/ethz/mlmq/nio/BrokerNetworkInterface.java:82-87 | The started broker satisfies them |
| BrokerSteps.DisconnectKeeps | code/mlmq/src/ch/ethz/mlmq/nio/BrokerNetworkInterface.java:174-188 | Disconnecting releases both buffers once |
| BrokerSteps.DeliverKeeps | code/mlmq/src/ch/ethz/mlmq/nio/BrokerNetworkInterface.java:193-215 | Delivering moves a response to its connection or to the pool |
| BrokerSteps.ReadMessageKeeps | code/mlmq/src/ch/ethz/mlmq/nio/BrokerNetworkInterface.java:253-319 | A complete message leaves with its buffer, or is dropped if the queue is full |
| BrokerSteps.WriteKeeps | code/mlmq/src/ch/ethz/mlmq/nio/ConnectedClient.java:128-140 | A sent response releases its buffer |
| BrokerSteps.AcceptKeeps | code/mlmq/src/ch/ethz/mlmq/nio/BrokerNetworkInterface.java:284-304 | A new connection gets two buffers of its own |
| BrokerSteps.DecodeKeeps | code/mlmq/src/ch/ethz/mlmq/server/processing/Worker.java:79-82 | Taking the request out of a worker task, or losing it to an exception |
| BrokerSteps.AnswerKeeps | code/mlmq/src/ch/ethz/mlmq/server/processing/Worker.java:92-95 | Writing the response over the request that was read, or overflowing |
| BrokerSteps.PostKeeps | code/mlmq/src/ch/ethz/mlmq/server/processing/Worker.java:98-103 | Queueing the response, or dropping it |
| BrokerSteps.TakeKeeps | code/mlmq/src/ch/ethz/mlmq/server/processing/Worker.java:52-56 | Taking a task off the queue |
| BrokerObjects.ByteBufferPool.Aquire | code/mlmq/src/ch/ethz/mlmq/nio/ByteBufferPool.java:28-36 | The oldest pooled buffer or a new one, cleared |
| BrokerObjects.ByteBufferPool.Release | code/mlmq/src/ch/ethz/mlmq/nio/ByteBufferPool.java:24-26 | The buffer goes to the end of the pool |
| BrokerObjects.WorkerTask.Close | code/mlmq/src/ch/ethz/mlmq/server/processing/WorkerTask.java:50-58 | Releases whatever it still refers to |
| BrokerObjects.WorkerTask.GetAndRemoveRequestBuffer | code/mlmq/src/ch/ethz/mlmq/server/processing/WorkerTask.java:33-37 | Hands the buffer over |
| BrokerObjects.ConnectedClient.Close | code/mlmq/src/ch/ethz/mlmq/nio/ConnectedClient.java:65-75 | Releases both buffers |
| BrokerObjects.ConnectedClient.SwapRxBuffer | code/mlmq/src/ch/ethz/mlmq/nio/ConnectedClient.java:97-101 | Exchanges the receive buffer |
| BrokerObjects.ConnectedClient.SetResponse | code/mlmq/src/ch/ethz/mlmq/nio/ConnectedClient.java:108-121 | Releases the old transmit buffer, takes the new one, switches write interest on |
| BrokerObjects.ConnectedClient.AfterWrite | code/mlmq/src/ch/ethz/mlmq/nio/ConnectedClient.java:128-140 | Releases the transmit buffer and switches write interest off when nothing remains |
| BrokerObjects.TaskQueue.Enqueue | code/mlmq/src/ch/ethz/mlmq/server/processing/WorkerTaskQueueImpl.java:17-25 | Adds to the end unless the queue is full |
| BrokerObjects.TaskQueue.Dequeue | code/mlmq/src/ch/ethz/mlmq/nio/NetworkIntefaceResponseQueue.java:57-64 | The head, or null |
| BrokerObjects.BrokerNetworkInterface.SelectAccept | code/mlmq/src/ch/ethz/mlmq/nio/BrokerNetworkInterface.java:284-304 | Is the accepting step |
| BrokerObjects.BrokerNetworkInterface.SelectRead | code/mlmq/src/ch/ethz/mlmq/nio/BrokerNetworkInterface.java:253-282 | Is the reading step, with or without a message, and the disconnecting step if the peer closed |
| BrokerObjects.BrokerNetworkInterface.ReceiveMessage | code/mlmq/src/ch/ethz/mlmq/nio/BrokerNetworkInterface.java:274-319 | Is the reading step with a message, and says whether it was queued |
| BrokerObjects.BrokerNetworkInterface.SelectWrite | code/mlmq/src/ch/ethz/mlmq/nio/BrokerNetworkInterface.java:230-251 | Is the writing step |
| BrokerObjects.BrokerNetworkInterface.DisconnectClient | code/mlmq/src/ch/ethz/mlmq/nio/BrokerNetworkInterface.java:174-188 | Is the disconnecting step |
| BrokerObjects.BrokerNetworkInterface.SelectQueue | code/mlmq/src/ch/ethz/mlmq/nio/BrokerNetworkInterface.java:193-215 | Empties the response queue up to the first response for a client that has gone |
| BrokerObjects.DrainTakesSteps | code/mlmq/src/ch/ethz/mlmq/nio/BrokerNetworkInterface.java:193-215 | That loop is a run of delivering steps |
| BrokerObjects.DrainStops | code/mlmq/src/ch/ethz/mlmq/nio/BrokerNetworkInterface.java:193-215 | It ends behind the first response for a gone client, or else at the end of the queue |
| BrokerObjects.Worker.Process | code/mlmq/src/ch/ethz/mlmq/server/processing/Worker.java:76-105 | A valid request whose response fits is answered in its own buffer and queued last if there is room; in every other case the response queue is as before |
| BrokerObjects.ProcessTakesSteps | code/mlmq/src/ch/ethz/mlmq/server/processing/Worker.java:76-105 | Processing is a run of the worker's steps that leaves it idle |
| BrokerProgress.DroppedIff | code/mlmq/src/ch/ethz/mlmq/server/processing/Worker.java:76-105 | In every reachable state: a step drops a request exactly if a queue is full, decoding fails, the response does not fit or the peer has gone; it loses a buffer in the same cases but the last |
| BrokerProgress.PostDropsIff | code/mlmq/src/ch/ethz/mlmq/server/processing/Worker.java:95-102 | Posting drops the response if and only if the response queue is full, and otherwise puts it last |
| BrokerProgress.RequestIsAnswered | code/mlmq/src/ch/ethz/mlmq/nio/BrokerNetworkInterface.java:193-278 | Progress: from every reachable state with an idle worker and room in both queues, any connection's next request can be answered: a run without failures ends with the response to that very request in its transmit buffer |
| BrokerProgress.SendCompletes | code/mlmq/src/ch/ethz/mlmq/nio/BrokerNetworkInterface.java:288-330 | Sending the rest ends write interest and gives the buffer back; sending a part changes nothing |
| MessageStore.AtMostOnce | code/mlmq/src/ch/ethz/mlmq/server/db/dao/MessageDao.java:173-205 | No message is returned by two dequeues, for any interleaving of their two statements and no locking |
| MessageStore.ReturnedIsInserted | code/mlmq/src/ch/ethz/mlmq/server/db/dao/MessageDao.java:216-258 | A returned message is an inserted one, unchanged, that matches the query and is no longer stored |
| MessageStore.InsertedIsStoredOrDeleted | code/mlmq/src/ch/ethz/mlmq/server/db/dao/MessageDao.java:133-205 | Conservation: what was inserted is stored or deleted, not both, and the numbers add up |
| MessageStore.ReturnedIffStored | code/mlmq/src/ch/ethz/mlmq/server/db/dao/MessageDao.java:173-205 | A dequeue returns the row it picked if and only if that row is still stored |
| MessageStore.MatchIsDequeued | code/mlmq/src/ch/ethz/mlmq/server/db/dao/MessageDao.java:173-205 | Progress: in every reachable state a free worker can dequeue any stored message that matches |
| MessageStore.PartsRestrict | code/mlmq/src/ch/ethz/mlmq/server/db/dao/MessageDao.java:216-258 | A query without parts matches everything; each part keeps the rows that agree in it |
| MessageStore.StepKeeps | code/mlmq/src/ch/ethz/mlmq/server/db/dao/MessageDao.java:133-205 | Every statement of every worker keeps this |
| MessageStore.MessageDao.InsertMessage | code/mlmq/src/ch/ethz/mlmq/server/db/dao/MessageDao.java:133-149 | For the i-th queue a row of the i-th fresh id with that queue, the sender, content and priority given, and no context; the rest as before; if a statement fails, those before it stay |
| MessageStore.MessageDao.PeekMessage | code/mlmq/src/ch/ethz/mlmq/server/db/dao/MessageDao.java:216-258 | A matching row, and none only if none matches |
| MessageStore.MessageDao.DequeueMessage | code/mlmq/src/ch/ethz/mlmq/server/db/dao/MessageDao.java:173-205 | The row that is gone afterwards, nothing, or an error because another worker deleted the row |
| PairedConversation.NoMismatch | code/mlmq/src/ch/ethz/mlmq/scenario/impl/PairedClient.java:144-146 | The branch for an unexpected number is unreachable, in every run with losses, late executions, timeouts and re-sends; a received message belongs to the last request and carries the next number |
| PairedConversation.StrangerInContextMisleads | code/mlmq/src/ch/ethz/mlmq/scenario/impl/PairedClient.java:144-146 | If a stranger sends in a context of the requester, that branch is reached: a concrete run from the start |
| Strangers.StrangerMisleadsIff | code/mlmq/src/ch/ethz/mlmq/scenario/impl/PairedClient.java:129-157 | In every reachable state, and for every issued context and number: a stranger's message with them in the requester's queue can lead to that branch if and only if the requester waits for the context and expects another number |
| Strangers.WrongNumberMisleads | code/mlmq/src/ch/ethz/mlmq/scenario/impl/PairedClient.java:129-157 | From every state whatsoever, a wrong number in the context that the requester waits for can lead to that branch |
| PairedConversation.RequesterStaysEven | code/mlmq/src/ch/ethz/mlmq/scenario/impl/PairedClient.java:129-157 | The requester's counter and all its requests are even, and every context was issued |
| PairedConversation.StepKeeps | code/mlmq/src/ch/ethz/mlmq/scenario/impl/PairedClient.java:110-157 | Every step of the clients, the broker and others keeps contexts and numbers in agreement |
| PairedConversation.PairedClient.RequestingAction | code/mlmq/src/ch/ethz/mlmq/scenario/impl/PairedClient.java:129-157 | The requester's fields after its action, for every reply |
| PairedConversation.PairedClient.RespondingAction | code/mlmq/src/ch/ethz/mlmq/scenario/impl/PairedClient.java:110-127 | The responder's fields after its action, for every reply |
| Conversation.CounterStep | code/mlmq/src/ch/ethz/mlmq/scenario/impl/PairedClient.java:129-157 | In every state of the invariant an accepted reply raises the requester's counter by exactly 2, and no other step changes it |
| Conversation.CounterIsTwiceAccepted | code/mlmq/src/ch/ethz/mlmq/scenario/impl/PairedClient.java:129-157 | In every run the counter is twice the number of accepted replies |
| Conversation.RequestsWithoutGaps | code/mlmq/src/ch/ethz/mlmq/scenario/impl/PairedClient.java:129-157 | In every run the requester's numbers are 0, 2, 4 and so on without gaps, each repeated until it is answered |
| Conversation.AnswerIsNextNumber | code/mlmq/src/ch/ethz/mlmq/scenario/impl/PairedClient.java:110-127 | The responder answers with the received number plus 1, in the received context |
| Conversation.RequestIsNextNumber | code/mlmq/src/ch/ethz/mlmq/scenario/impl/PairedClient.java:129-157 | The requester waits for the context it was given, and goes on with the received number plus 1 |
| Conversation.ConversationGoesOn | code/mlmq/src/ch/ethz/mlmq/scenario/impl/PairedClient.java:110-157 | Progress: from every start, whatever the queues hold, any number of rounds is possible |
| ConnectionPool.ConnectionsConserved | code/mlmq/src/ch/ethz/mlmq/server/db/DbConnectionPool.java:42-98 | Pooled, held and lost connections always make up the pool's size, so that too many are never returned |
| ConnectionPool.ConnectionsAreExclusive | code/mlmq/src/ch/ethz/mlmq/server/db/DbConnectionPool.java:67-98 | No connection is held twice or held and pooled |
| ConnectionPool.TakenIsOpen | code/mlmq/src/ch/ethz/mlmq/server/db/DbConnectionPool.java:67-98 | No closed connection is handed out |
| ConnectionPool.FullAgain | code/mlmq/src/ch/ethz/mlmq/server/db/DbConnectionPool.java:82-98 | If every replacement succeeds, the pool is complete whenever no worker holds a connection |
| ConnectionPool.ReturnLosesIff | code/mlmq/src/ch/ethz/mlmq/server/db/DbConnectionPool.java:82-98 | A connection is lost if and only if it is closed and the replacement fails; otherwise it, or a new one in its place, is pooled last |
| ConnectionPool.StepKeeps | code/mlmq/src/ch/ethz/mlmq/server/db/DbConnectionPool.java:67-98 | Every step of every worker keeps this |
| ConnectionPool.DbConnectionPool.Init | code/mlmq/src/ch/ethz/mlmq/server/db/DbConnectionPool.java:42-51 | Fills the pool up to the first failure |
| ConnectionPool.DbConnectionPool.GetConnection | code/mlmq/src/ch/ethz/mlmq/server/db/DbConnectionPool.java:67-73 | The oldest connection, open and no longer pooled |
| ConnectionPool.DbConnectionPool.ReturnConnection | code/mlmq/src/ch/ethz/mlmq/server/db/DbConnectionPool.java:82-98 | Pools the connection, or a new one for a closed one |
| ConnectionPool.ProcessRequest | code/mlmq/src/ch/ethz/mlmq/server/processing/RequestProcessor.java:169-187 | The discipline of the process methods: on every way out the pool is as large as before, unless replacing a closed connection failed |
| Messages.RequestRoundTrip | code/mlmq/src/ch/ethz/mlmq/net/request/RequestResponseFactory.java:91-124 | Decoding an encoded request followed by any bytes gives the request and stops at the first of them |
| Messages.ResponseRoundTrip | code/mlmq/src/ch/ethz/mlmq/net/request/RequestResponseFactory.java:106-129 | The same for responses |
| Messages.RequestsUnambiguous | code/mlmq/src/ch/ethz/mlmq/net/request/RequestResponseFactory.java:121-124 | No encoded request begins another one |
| Messages.ResponsesUnambiguous | code/mlmq/src/ch/ethz/mlmq/net/request/RequestResponseFactory.java:126-129 | No encoded response begins another one |
| Messages.IdsDistinct | code/mlmq/src/ch/ethz/mlmq/net/request/RequestResponseFactory.java:55-77 | No two types are registered with the same id |
| Messages.RequestHead | code/mlmq/src/ch/ethz/mlmq/net/request/RequestResponseFactory.java:121-124 | The four literal bytes at which each type of request starts |
| Messages.ResponseHead | code/mlmq/src/ch/ethz/mlmq/net/request/RequestResponseFactory.java:126-129 | The same for responses |
| Messages.UnknownTypeFails | code/mlmq/src/ch/ethz/mlmq/net/request/RequestResponseFactory.java:91-119 | A type id that nothing is registered for fails, whatever follows |
| Messages.SendMessageRoundTrip | code/mlmq/src/ch/ethz/mlmq/net/request/SendMessageRequest.java:86-108 | List of nullable ids, content, priority |
| Messages.SendClientMessageRoundTrip | code/mlmq/src/ch/ethz/mlmq/net/request/SendClientMessageRequest.java:136-153 | Its five fields |
| Messages.PendingQueuesRoundTrip | code/mlmq/src/ch/ethz/mlmq/net/response/QueuesWithPendingMessagesResponse.java:74-91 | A number and a list of nullable objects |
| Codec.MessageDtoRoundTrip | code/mlmq/src/ch/ethz/mlmq/dto/MessageDto.java:126-146 | Nested nullable objects between other fields |
| Codec.QueryInfoRoundTrip | code/mlmq/src/ch/ethz/mlmq/dto/MessageQueryInfoDto.java:134-148 | Nested nullable objects, a flag, a nullable number |
| Codec.NamedRoundTrip | code/mlmq/src/ch/ethz/mlmq/dto/QueueDto.java:66-76 | Queue and client objects |
| Codec.TextRoundTrip | code/mlmq/src/ch/ethz/mlmq/util/ByteBufferUtil.java:16-36 | Nullable strings and byte arrays: null and empty are told apart |
| Codec.NullableRoundTrip | code/mlmq/src/ch/ethz/mlmq/util/ByteBufferUtil.java:38-54 | A marker byte and, unless null, the object |
| Codec.NullableLongRoundTrip | code/mlmq/src/ch/ethz/mlmq/util/ByteBufferUtil.java:69-94 | Nullable numbers |
| Codec.AllRoundTrip | code/mlmq/src/ch/ethz/mlmq/net/request/SendMessageRequest.java:87-102 | Lists of any length |
| Codec.LongRoundTrip | code/mlmq/src/ch/ethz/mlmq/util/ByteBufferUtil.java:69-76 | Two's complement, 64 bits |
| Codec.IntRoundTrip | code/mlmq/src/ch/ethz/mlmq/util/ByteBufferUtil.java:78-85 | Two's complement, 32 bits |
| Codec.LongOrder | code/mlmq/src/ch/ethz/mlmq/util/ByteBufferUtil.java:69-76 | Big-endian two's complement: the first differing byte of two encoded numbers decides the order of the unsigned 64-bit words |
| Codec.IntOrder | code/mlmq/src/ch/ethz/mlmq/util/ByteBufferUtil.java:78-85 | The same for 32 bits |
| WireBytes.Markers | code/mlmq/src/ch/ethz/mlmq/util/ByteBufferUtil.java:13-112 | Literal bytes: true and present are 0, false and null 255, a null text has length -1 |
| WireBytes.ReadBoolean | code/mlmq/src/ch/ethz/mlmq/util/ByteBufferUtil.java:64-67 | Only the byte 0 reads as true |
| WireBytes.ReadText | code/mlmq/src/ch/ethz/mlmq/util/ByteBufferUtil.java:114-124 | Any negative length reads as null, a length beyond the end is an exception |
| WireBytes.ReadNumber | code/mlmq/src/ch/ethz/mlmq/util/ByteBufferUtil.java:87-103 | Reading a number fails if and only if there are too few bytes |
| WireBytes.FrameBytes | code/mlmq/src/ch/ethz/mlmq/net/request/RequestResponseFactory.java:137-156 | A frame is the length of the payload, highest byte first, and the payload |
| WireBytes.MessageDtoBytes | code/mlmq/src/ch/ethz/mlmq/dto/MessageDto.java:126-134 | Literal bytes, for all values of one byte each: order of the six fields |
| WireBytes.QueryInfoBytes | code/mlmq/src/ch/ethz/mlmq/dto/MessageQueryInfoDto.java:134-139 | Literal bytes: order of the four fields |
| WireBytes.NamedBytes | code/mlmq/src/ch/ethz/mlmq/dto/QueueDto.java:66-69 | Literal bytes: id, then name |
| WireBytes.SendMessageBytes | code/mlmq/src/ch/ethz/mlmq/net/request/SendMessageRequest.java:86-95 | Literal bytes: number of ids, the ids, content, priority |
| WireBytes.SendClientMessageBytes | code/mlmq/src/ch/ethz/mlmq/net/request/SendClientMessageRequest.java:136-142 | Literal bytes: order of the five fields |
| WireBytes.LookupQueueBytes | code/mlmq/src/ch/ethz/mlmq/net/request/LookupQueueRequest.java:84-87 | Literal bytes: name, then client |
| WireBytes.RegisteredBytes | code/mlmq/src/ch/ethz/mlmq/net/response/RegistrationResponse.java:69-72 | Literal bytes: client, then whether it is new |
| WireBytes.PendingQueuesBytes | code/mlmq/src/ch/ethz/mlmq/net/response/QueuesWithPendingMessagesResponse.java:74-80 | Literal bytes: own messages, number of queues, the queues |
| Buffers.ByteBuffer.PutText | code/mlmq/src/ch/ethz/mlmq/util/ByteBufferUtil.java:105-112 | Puts length and bytes or the null length, if they fit |
| Buffers.ByteBuffer.PutNullableLong | code/mlmq/src/ch/ethz/mlmq/util/ByteBufferUtil.java:69-76 | Puts marker and number, if they fit |
| Buffers.ByteBuffer.PutNullableInt | code/mlmq/src/ch/ethz/mlmq/util/ByteBufferUtil.java:78-85 | The same for 32 bits |
| Buffers.ByteBuffer.GetText | code/mlmq/src/ch/ethz/mlmq/util/ByteBufferUtil.java:114-124 | Value and position as decoding says; any negative length is null |
| Buffers.ByteBuffer.GetNullableLong | code/mlmq/src/ch/ethz/mlmq/util/ByteBufferUtil.java:87-94 | Value and position as decoding says |
| Buffers.ByteBuffer.GetNullableInt | code/mlmq/src/ch/ethz/mlmq/util/ByteBufferUtil.java:96-103 | Value and position as decoding says |
| Buffers.ByteBuffer.GetBoolean | code/mlmq/src/ch/ethz/mlmq/util/ByteBufferUtil.java:64-67 | Any byte but the true byte is false |
| MessageBuffers.ThenMessage | code/mlmq/src/ch/ethz/mlmq/dto/MessageDto.java:126-134 | Puts a nullable message |
| MessageBuffers.ThenQueryInfo | code/mlmq/src/ch/ethz/mlmq/dto/MessageQueryInfoDto.java:134-139 | Puts a nullable query |
| MessageBuffers.ThenIds | code/mlmq/src/ch/ethz/mlmq/net/request/SendMessageRequest.java:87-90 | The loop puts all ids |
| MessageBuffers.ThenQueues | code/mlmq/src/ch/ethz/mlmq/net/response/QueuesWithPendingMessagesResponse.java:76-79 | The loop puts all queues |
| MessageBuffers.SerializeRequestWithHeader | code/mlmq/src/ch/ethz/mlmq/net/request/RequestResponseFactory.java:137-156 | Writes exactly length and payload if they fit, and never touches earlier bytes |
| MessageBuffers.SerializeResponseWithHeader | code/mlmq/src/ch/ethz/mlmq/net/request/RequestResponseFactory.java:158-177 | The same for responses |
| MessageBuffers.BackPatched | code/mlmq/src/ch/ethz/mlmq/net/request/RequestResponseFactory.java:149-155 | Putting the length where the placeholder was makes a frame |
| MessageReading.DeserializeRequest | code/mlmq/src/ch/ethz/mlmq/net/request/RequestResponseFactory.java:91-104 | The dispatching reader is the decoder, in value and position |
| MessageReading.DeserializeResponse | code/mlmq/src/ch/ethz/mlmq/net/request/RequestResponseFactory.java:106-119 | The same for responses |
| MessageReading.GetIds | code/mlmq/src/ch/ethz/mlmq/net/request/SendMessageRequest.java:99-102 | The appending loop reads as many ids as the size says |
| MessageReading.GetQueues | code/mlmq/src/ch/ethz/mlmq/net/response/QueuesWithPendingMessagesResponse.java:85-88 | The appending loop reads as many queues |
| Framing.HasReceivedMessage | code/mlmq/src/ch/ethz/mlmq/nio/ConnectedClient.java:77-95 | Whether the announced length has arrived, and where the position ends up |
| Framing.AnswerInPlace | code/mlmq/src/ch/ethz/mlmq/server/processing/Worker.java:76-95 | A completely received request is decoded although the limit is the capacity; the response written over it is sent alone |
| Framing.FragmentsReceivedIff | code/mlmq/src/ch/ethz/mlmq/nio/ConnectedClient.java:77-95 | A request that arrives in several reads is received if and only if every read but the last ends within the length field |
| Framing.CutPayloadIsNotReceived | code/mlmq/src/ch/ethz/mlmq/nio/ConnectedClient.java:77-95 | A message cut inside its payload is not received |
| Framing.ReadChunk | code/mlmq/src/ch/ethz/mlmq/nio/BrokerNetworkInterface.java:268-278 | One read event, as the lemmas above describe it |
| ClientConnection.Connection.WriteToSocket | code/mlmq/src/ch/ethz/mlmq/net/ClientConnection.java:135-145 | Sends the request's frame and empties the buffer |
| ClientConnection.Connection.ReadResponse | code/mlmq/src/ch/ethz/mlmq/net/ClientConnection.java:74-105 | For every way of cutting a frame of at most 4000 bytes into non-empty reads: the response, and an empty buffer |
| ClientConnection.Connection.SubmitRequest | code/mlmq/src/ch/ethz/mlmq/net/ClientConnection.java:52-126 | Sends the request and returns that response |
| ClientConnection.Converse | code/mlmq/src/ch/ethz/mlmq/net/ClientConnection.java:52-126 | So every later request finds the buffer empty and gets its own response |
| LogBuckets.Bucket.Percentile | code/log_analyzer/src/ch/ethz/mlmq/log_analyzer/Bucket.java:119-137 | Of n added values in sorted order: the k-th if 100 k <= p (n+1) < 100 (k+1), the first below 100, the last from 100 n on; 0 without values |
| LogBuckets.Bucket.AddValue | code/log_analyzer/src/ch/ethz/mlmq/log_analyzer/Bucket.java:53-60 | Counts one more and forgets the cache |
| LogBuckets.Bucket.GetDurations | code/log_analyzer/src/ch/ethz/mlmq/log_analyzer/Bucket.java:43-51 | The keys in ascending order, cached or not |
| LogBuckets.Bucket.Count | code/log_analyzer/src/ch/ethz/mlmq/log_analyzer/Bucket.java:35-41 | The number of added values |
| LogBuckets.Select | code/log_analyzer/src/ch/ethz/mlmq/log_analyzer/Bucket.java:129-136 | Walking the counts finds the element of the flat list |
| LogAnalyzer.LogAnalizer.ProcessLine | code/log_analyzer/src/ch/ethz/mlmq/log_analyzer/LogAnalizer.java:51-73 | Afterwards bucket k holds exactly the selected lines of window k and starts at start + k * size; too high a position is an error |
| LogAnalyzer.OneLine | code/log_analyzer/src/ch/ethz/mlmq/log_analyzer/LogAnalizer.java:51-73 | A line counts in window k exactly if its time is from start to end, both included, and in the k-th interval, and its name begins with the prefix |
| LogAnalyzer.StrayLine | code/log_analyzer/src/ch/ethz/mlmq/log_analyzer/LogAnalizer.java:57-62 | A line past the end, before the start, or with the prefix elsewhere in its name changes no window |
| LogAnalyzer.WindowCounts | code/log_analyzer/src/ch/ethz/mlmq/log_analyzer/LogAnalizer.java:51-73 | A window holds every duration as often as there are such lines with it |
| LogAnalyzer.WindowsNeeded | code/log_analyzer/src/ch/ethz/mlmq/log_analyzer/LogAnalizer.java:64-68 | There are as many windows as the last such line needs |
| LogAnalyzer.LogAnalizer.ProcessLines | code/log_analyzer/src/ch/ethz/mlmq/log_analyzer/LogAnalizer.java:41-49 | The same for all lines of a file |
| LogAnalyzer.WindowIsInterval | code/log_analyzer/src/ch/ethz/mlmq/log_analyzer/LogLine.java:33-39 | Position k is the half-open interval from start + k * size of that size |
| LogAnalyzer.OrderIsIrrelevant | code/log_analyzer/src/ch/ethz/mlmq/log_analyzer/LogAnalizer.java:25-49 | Buckets depend on which lines there are, not on their order |

## Left out

- Rounding and overflow of `double`, and rounding in the first solver: arithmetic there is exact. In the decimal solver rounding is any function that keeps signs, in the third solver any function at all.
- Infinite and undefined quotients: service times, visits and servers are positive, and a cycle is not empty. The third solver is total with a division whose result may be anything.
- Networks are solved from new stations, as both programs do; solving one twice without new stations is not covered.
- MvaInvariants.ConservedIff: its condition is on the response times that the run ends with. On the network itself it is exact when the visits of load-dependent stations lie on one side of 1 (MvaInvariants.ConservationOfCustomers) and, for any visits, with one client (MvaClamps.FirstConservedIff); visits on both sides of 1 with more clients are left with the former, because the parts of different stations can cancel.
- MvaClamps.CapacityExceededIff: needs one server. With several, throughput above the capacity still makes the clamp fire (MvaClamps.CapacityUnlessClamped), but the clamp can also fire within the capacity: the conditions of MvaClamps.FirstClampIff and MvaClamps.FirstExceedsIff differ.
- LearnGanzSolver.PerformMVA: utilisation, demand and logged columns, which feed nothing back, are not modelled.
- Setters, names, and how numbers are printed.
- The case rho = 1 of the closed forms, mean numbers of jobs, and the bounded queue's probability of queueing.
- Sockets, selectors, timers, the reactor's startup and shutdown, and an exception while accepting, which ends the reactor. Reads and writes transfer any number of bytes.
- BrokerObjects.BrokerNetworkInterface.SelectAccept: handles count up without bound, because wrap-around of the counter is not modelled.
- The number of a message on its connection, kept in tasks and connections to tell requests apart, is not in the program.
- Which request a response is sent for if a client sends a second one before it got the first response: the second response then replaces an unsent first one, as in the code, and nothing is claimed about the first.
- SQL: a query returns any matching row; order, priorities, locks, transactions and cascading deletion are not modelled. Rows may also disappear for other reasons.
- MessageStore.MessageDao.DequeueMessage: what other workers do between the two statements is reduced to a set of rows they delete; MessageStore.AtMostOnce has the full interleaving.
- PairedConversation.NoMismatch: assumes that others send in the contexts issued for the requester's requests only the number that belongs there, because any message in such a context is taken for a response. Strangers.StrangerMisleadsIff says exactly which message with a number in the requester's queue and an issued context misleads; other foreign messages, to the responder or in contexts not yet issued, have the sufficient condition only.
- Conversation contexts and ids grow without bound; their casts to int are not modelled.
- ConnectionPool.DbConnectionPool.GetConnection: waiting for a connection is not modelled; an empty pool is an interrupted wait.
- Closing the pool while workers run.
- Strings are the bytes they are sent as, an exception is a byte array, and the text of numbers in messages is not modelled.
- Running out of memory for an announced length; the client's timeout, which closes the connection.
- ClientConnection.Connection.SubmitRequest: says nothing about streams that are not exactly one frame, because bytes after the frame stay in the buffer and precede the next request.
- Mean, variance and standard deviation of buckets; files, their headers and the parsing of lines; window sizes that are not positive; durations, counts and timestamps do not overflow.
- Plain getters, equality and hash codes, queue and client tables, file watching, logging, plots and scripts.
