# Argo CD autoscaler: a verified model

A Dafny model of the pipeline that spreads Argo CD clusters ("shards") over application-controller
replicas, with proofs of what its controllers promise. `dafny verify dfyconfig.toml` checks all of it.

The pipeline: polled metrics are normalized per metric, combined into one load per shard, packed onto
replicas, stabilized over time, and finally realised by writing replica numbers into cluster secrets and
scaling the StatefulSet that runs the replicas.

| file | models |
|---|---|
| `Common.dfy` | shards, metric values, load indexes, replicas |
| `Sorting.dfy`, `Strconv.dfy` | in-place sorting by a comparison; decimal numbers as strings |
| `Serialization.dfy` | the canonical string every controller compares partitions by |
| `Partitioner.dfy`, `Packing.dfy`, `Arith.dfy`, `PackingBound.dfy`, `Greedy.dfy`, `Placement.dfy`, `OrderIndependence.dfy` | the longest-processing-time partitioner: its array code, then conservation, makespan, replica-count bounds, heaviest first, each choice, independence of input order |
| `Evaluator.dfy`, `EvaluatorRuns.dfy`, `EvaluatorTrace.dfy`, `EvaluatorAwaiting.dfy` | the "most wanted" hysteresis evaluator: one reconcile, whole runs, what the compressed history means, how the leader is lost and for how long |
| `ShardManager.dfy`, `ShardManagerRuns.dfy` | the loop that writes replica numbers into secrets, with failing writes and retries; which secret is written when, and what ready means over runs |
| `StatefulSets.dfy`, `Scaler.dfy`, `ScalerWrites.dfy` | `ScaleTo`, desired-state enforcement, one reconcile of the scaler; when it writes which object |
| `XZeroY.dfy`, `OneValue.dfy`, `LostRecords.dfy`, `XZeroYLimits.dfy` | X-0-Y over every interleaving: reassignments and pods apart, one value of the variable, and the runs that break either |
| `Convergence.dfy` | the scaler reaches Ready under every fair schedule, and from which states |
| `RobustScaling.dfy`, `Grouping.dfy`, `Normalizer.dfy`, `ScaledValues.dfy` | robust scaling and the positive offset; each output value from the sorted group alone |
| `LoadIndexer.dfy`, `LoadIndexLaws.dfy` | the weighted p-norm |
| `Pipeline.dfy` | the links: metrics to loads, loads to a partition, a partition to shard numbers |

Objects the code updates in place are classes here (`Evaluation`, `ShardManagerReconciler`, `StatefulSet`,
`Reconciler`) and the partitioner works on an array; each method is proved equal to a function on values
(`Step`, `ManagerStep`, `Scaled`, `ScalerStep`, `Pack`), and the properties are proved of those functions, among
them what each computes in terms of its inputs alone.

## Where the code and its description part

- **X-0-Y, the variable.** DESIGN.md:404-405 says the mode "effectively guarantees" one value of the replicas
  variable at a time. `OneValue.OneValueThroughout` proves it over every interleaving, whatever the provider
  publishes, whichever pods are lost and whichever writes fail, except one: the status write that records a
  scale-out from two or more replicas to another non-zero number. `LostRecords.OneValueIff` proves that losing that
  record is exactly what lets pods of two values meet, and `XZeroYLimits.LostWriteBreaksIt` runs into it from a
  steady state.
- **X-0-Y, the order of operations.** DESIGN.md:400-402 wants shards reassigned only while nothing runs.
  `XZeroY.RunApartIff` proves, for every run, that this holds throughout exactly when no reconcile of the scaler
  starts in an explicit hazard, and `XZeroY.XZeroYSafety` that none does as long as the provider's changes are
  calm (`CalmChange`) and the last pod is not lost between a change and the scale-down. `XZeroYLimits` has runs
  from any idle one-replica state, and such a state, in which one departure from that moves a shard under a
  pod: the provider returns to the old partition in mid-transition; the only pod is lost around the change, so
  that the scale-to-zero phase is skipped; the provider returns to what the shard manager's status still says.
- **The evaluator's comment** (mostwantedtwophasehysteresisevaluation_controller.go:294-299) calls a leader that
  is neither projection nor current partition a bug. `EvaluatorRuns.AwaitingIff` proves exactly when it happens:
  the leader's record is pruned while a record of some other partition remains that outvotes the current one.
  `EvaluatorAwaiting.AwaitingHappens` is such a run. DESIGN.md:342-350 describes the same case, and
  `EvaluatorAwaiting.AwaitingEnds` bounds how long its "eventually" takes, for arbitrary observations.
- **In-cluster first.** The binary search for the in-cluster shard runs on a condition that is not monotone.
  `Partitioner.InClusterLeadsIff` gives the exact positions at which it is found; second of four is missed.
- **Convergence.** A shard listed twice in the shard manager's spec, or a recorded number that does not parse,
  makes the shard manager not ready, and the scaler then never gets to replace that spec.
  `Convergence.ConvergesIff` proves this is, with a missing container, all that can stop it.
- **Truncation.** A recorded number is compared after conversion to int32, so a number outside that range can
  pass for another one. `ShardManager.AgreesIff` proves that this alone keeps a listed secret from holding its
  replica's number; `ShardManager.TruncatedNumberAccepted` is an input.

## Model

| member | source | states |
|---|---|---|
| Serialization.SerializeToString | api/autoscaler/common/replica.go:48-69 | The loops build the string of the UID-to-replica map, keys in byte order, whatever order the map is visited in |
| Serialization.SerializeShows | api/autoscaler/common/replica.go:43-69 | The string shows every UID, an equals sign and its replica, separated by commas, in the order of any sorted listing of the UIDs |
| Serialization.ByteOrder | api/autoscaler/common/replica.go:57-61 | That order: a beginning of the other, or smaller where they first differ |
| Serialization.Canonical | api/autoscaler/common/replica.go:43-48 | For UIDs free of `=` and `,`, two lists have equal strings if and only if they denote the same UID-to-ID map, a later replica overriding an earlier one |
| Serialization.OrderImmaterial | api/autoscaler/common/replica.go:46-47 | Without repeated UIDs, equal strings if and only if the same assignments are listed, in any order of replicas and of shards |
| Serialization.SameCount | internal/controller/autoscaler/replicasetscaler_controller.go:340-345 | For IDs 0..k-1 and no empty replica, equal strings imply equal replica counts |
| Serialization.DenoteRange | api/autoscaler/common/replica.go:50-55 | Such a list denotes only IDs below its length, and reaches the highest |
| Serialization.ListingUnique | api/autoscaler/common/replica.go:57-61 | A set of keys has exactly one sorted listing, so map order cannot show |
| Strconv.AtoiItoa | internal/controller/autoscaler/secrettypeclustershardmanager_controller.go:201-226 | A number written into a secret is read back as itself |
| Strconv.AtoiIff | internal/controller/autoscaler/secrettypeclustershardmanager_controller.go:199-219 | Parsing yields v if and only if the string is an optional sign, any number of zeros and the shortest rendering of v, and v fits 64 bits |
| Partitioner.Search | partitioners/longestprocessingtime/longestprocessingtime.go:109-111 | The binary search, as the standard library runs it, on a condition that need not be monotone |
| Partitioner.LiftInCluster | partitioners/longestprocessingtime/longestprocessingtime.go:112-118 | The returned slice has the found shard in front; the caller's array is left shifted, its last element doubled |
| Partitioner.ResidueShape | partitioners/longestprocessingtime/longestprocessingtime.go:112-118 | What a lift does to the caller's list: still in order, the lifted shard missing, the last one doubled |
| Partitioner.Sort | partitioners/longestprocessingtime/longestprocessingtime.go:97-119 | The result is the lift of some descending arrangement of the old contents, the bucket its first load, and the array's new contents are known |
| Partitioner.BucketIsHeaviest | partitioners/longestprocessingtime/longestprocessingtime.go:102-104 | The bucket is the maximum of the loads |
| Partitioner.LiftShape | partitioners/longestprocessingtime/longestprocessingtime.go:109-118 | Whatever the search hits, the slice is a permutation of the input, descending, or an in-cluster shard followed by a descending rest |
| Partitioner.InClusterLeadsIff | partitioners/longestprocessingtime/longestprocessingtime.go:106-118 | A sole in-cluster shard leads if and only if its sorted index is 0 or its distance from the end is a successive halving of n + 1 |
| Partitioner.InClusterMissed | partitioners/longestprocessingtime/longestprocessingtime.go:109-118 | At index 1 of 4 it does not lead |
| Packing.PackOpens | partitioners/longestprocessingtime/longestprocessingtime.go:50-76 | The first shard of the sorted slice is the first one of replica 0 |
| Packing.InClusterOpensIff | partitioners/longestprocessingtime/longestprocessingtime.go:47-119 | In the returned list, a sole in-cluster shard opens replica 0 at exactly those positions |
| Partitioner.Select | partitioners/longestprocessingtime/longestprocessingtime.go:51-65 | The chosen replica is the first of the least loaded ones that are below the cap and stay below the bucket; -1 only when there is none |
| Partitioner.SelectLoop | partitioners/longestprocessingtime/longestprocessingtime.go:51-65 | The loop with its running minimum computes that choice |
| Partitioner.Partition | partitioners/longestprocessingtime/longestprocessingtime.go:36-95 | The array code packs the lifted arrangement of the array's old contents, replica by replica; the next four rows say what that is without its functions |
| Placement.GreedyPlacement | partitioners/longestprocessingtime/longestprocessingtime.go:36-119 | Every returned list comes about by choices: the shards of the input, heaviest first behind at most an in-cluster one, each go to the first of the least loaded replicas that are below the cap and stay below the heaviest load, and to a new one exactly if there is none |
| Placement.PlacedOnce | partitioners/longestprocessingtime/longestprocessingtime.go:48-92 | Those choices leave no freedom: for one order of the shards only one list comes about |
| Greedy.HeaviestFirst | partitioners/longestprocessingtime/longestprocessingtime.go:48-119 | Read off the returned list: loads never increase inside a replica, nor the first loads with the ID; with an in-cluster shard lifted in front, after it |
| Greedy.OptimalCount | partitioners/longestprocessingtime/longestprocessingtime.go:48-92 | If the replica opened last begins with more than half of b, no packing into bins of size b needs fewer bins, and at most one fewer with a lifted shard in front |
| Packing.PartitionSound | partitioners/longestprocessingtime/longestprocessingtime.go:67-92 | The replicas hold exactly the multiset of the input, IDs are 0..k-1, none is empty or over a positive cap, every total is the sum of its shards |
| Packing.PartitionUids | partitioners/longestprocessingtime/longestprocessingtime.go:67-92 | Distinct UIDs in, distinct UIDs out |
| Packing.PartitionWithinHeaviest | partitioners/longestprocessingtime/longestprocessingtime.go:59-76 | No replica's total exceeds the heaviest load, with or without a cap |
| Packing.PartitionHeavyAlone | partitioners/longestprocessingtime/longestprocessingtime.go:59-76 | For non-negative loads every heaviest shard sits alone |
| Packing.OptimalMakespan | partitioners/longestprocessingtime/longestprocessingtime.go:52-76 | For non-negative loads the fullest replica carries exactly the heaviest load, and no assignment to any number of replicas has a lower maximum |
| PackingBound.PackingBound | partitioners/longestprocessingtime/longestprocessingtime.go:49-92 | For k replicas, heaviest load b and no cap: any two replicas together reach b, k·b is at most twice the total load, and for b > 0 there are at most twice as many replicas as in any packing into bins of size b; with cap m, k·b is at most (n/m + 1)·b plus twice the total |
| OrderIndependence.OrderIndependentShape | partitioners/longestprocessingtime/longestprocessingtime.go:47-92 | Without in-cluster shards, permuting the input changes neither the replica count nor the sequence of totals, although the sort is unstable |
| OrderIndependence.OrderIndependent | partitioners/longestprocessingtime/longestprocessingtime.go:47-119 | With pairwise distinct loads, in-cluster or not, permuting the input gives the identical replica list |
| Evaluator.Evaluation.ObserveLoop | internal/controller/autoscaler/mostwantedtwophasehysteresisevaluation_controller.go:209-232 | Bumps the first record of the observed hash, or appends one |
| Evaluator.Evaluation.PruneLoop | internal/controller/autoscaler/mostwantedtwophasehysteresisevaluation_controller.go:234-249 | Keeps exactly the records last seen within retention, in order |
| Evaluator.Evaluation.Notice | internal/controller/autoscaler/mostwantedtwophasehysteresisevaluation_controller.go:251-268 | Maps each hash to the first of its records and to the votes of all of them, on any history |
| Evaluator.TallyAdds | internal/controller/autoscaler/mostwantedtwophasehysteresisevaluation_controller.go:251-268 | The votes of a hash are the sum over its records, wherever they stand |
| Evaluator.FirstWithIs | internal/controller/autoscaler/mostwantedtwophasehysteresisevaluation_controller.go:256-260 | The record kept for a hash is the first one with it |
| Evaluator.Evaluation.Winner | internal/controller/autoscaler/mostwantedtwophasehysteresisevaluation_controller.go:270-284 | Visiting the records in any order elects the one record with most votes, ties to the last seen |
| Evaluator.Evaluation.Reconcile | internal/controller/autoscaler/mostwantedtwophasehysteresisevaluation_controller.go:206-360 | The whole new status of one observing reconcile: history, projection, publication and readiness; PromotesIff, RetainedIff and HistoryAfter read it off the configured periods and the records |
| Evaluator.TopWins | internal/controller/autoscaler/mostwantedtwophasehysteresisevaluation_controller.go:270-284 | A non-empty sound history has a record that beats all others |
| Evaluator.TopUnique | internal/controller/autoscaler/mostwantedtwophasehysteresisevaluation_controller.go:270-284 | There is only one, so the order of the map is immaterial |
| Evaluator.HistoryAfter | internal/controller/autoscaler/mostwantedtwophasehysteresisevaluation_controller.go:209-249 | After a step a record exists if and only if it is within retention and is either the bumped one or an untouched older one; hashes and times stay distinct |
| Evaluator.CurrentRecorded | internal/controller/autoscaler/mostwantedtwophasehysteresisevaluation_controller.go:234-249 | With positive retention the partition just observed is never pruned |
| Evaluator.StepFresh | internal/controller/autoscaler/mostwantedtwophasehysteresisevaluation_controller.go:209-360 | Every reconcile keeps the history sound and older than the next observation |
| EvaluatorRuns.LeaderIsProjectionOrCurrent | internal/controller/autoscaler/mostwantedtwophasehysteresisevaluation_controller.go:286-300 | If the projection's record leads before a step and is not pruned by it, the new leader is the old projection or the current partition |
| EvaluatorRuns.CurrentLosesIff | internal/controller/autoscaler/mostwantedtwophasehysteresisevaluation_controller.go:270-292 | The current partition loses the election if and only if the history holds a record of another one that outlives the step and has more votes than the current one with its new vote |
| EvaluatorRuns.AwaitingIff | internal/controller/autoscaler/mostwantedtwophasehysteresisevaluation_controller.go:294-315 | From a known leader, the evaluator loses track if and only if the leader is pruned and such a record remains |
| EvaluatorAwaiting.AwaitingHappens | internal/controller/autoscaler/mostwantedtwophasehysteresisevaluation_controller.go:294-315 | It does happen: with periods of 10, one partition seen at 0, 1 and 2, another at 3 and 4, a third at 12 |
| EvaluatorAwaiting.AwaitingRun | internal/controller/autoscaler/mostwantedtwophasehysteresisevaluation_controller.go:294-315 | There are periods, hashes and partitions for such a run |
| EvaluatorAwaiting.AwaitingEnds | DESIGN.md:349-350 | It ends, whatever is observed: from any sound history with counts of at most M the evaluator is ready after some observation as soon as they span M - 1 retention periods |
| EvaluatorRuns.ReadyLeads | internal/controller/autoscaler/mostwantedtwophasehysteresisevaluation_controller.go:300-401 | A reconcile that ends ready leaves the projection's record in the lead, so the two lemmas above apply to the next one |
| EvaluatorRuns.NothingWithoutRetention | internal/controller/autoscaler/mostwantedtwophasehysteresisevaluation_controller.go:234-249 | With non-positive retention no run ever keeps a record or publishes anything |
| EvaluatorRuns.PromotesIff | internal/controller/autoscaler/mostwantedtwophasehysteresisevaluation_controller.go:344-360 | The projection is published if and only if it leads and its period has passed since the last publication, if any: the scale-down period if it has fewer replicas than are published, otherwise the scale-up period, and the common one in place of one that is not set |
| EvaluatorRuns.RetainedIff | internal/controller/autoscaler/mostwantedtwophasehysteresisevaluation_controller.go:404-440 | A record is retained exactly while one of those two periods, counted from its last sighting, is not over |
| EvaluatorRuns.PromotionsSpaced | internal/controller/autoscaler/mostwantedtwophasehysteresisevaluation_controller.go:344-360 | Over whole runs a promotion that lowers the replica count comes at least the scale-down period after the one before, any other at least the scale-up period, each as set in the configuration or else the common one; each replaces what the one before published |
| EvaluatorRuns.PromotionsElected | internal/controller/autoscaler/mostwantedtwophasehysteresisevaluation_controller.go:270-360 | What each promotion publishes had been observed by then and belongs to a record with the most votes of the election held at that moment, seen last among those with as many |
| EvaluatorRuns.Hysteresis | internal/controller/autoscaler/mostwantedtwophasehysteresisevaluation_controller.go:344-360 | Together, and n promotions span at least (n - 1) times any p that no period undercuts |
| EvaluatorRuns.OneSighting | internal/controller/autoscaler/mostwantedtwophasehysteresisevaluation_controller.go:209-360 | One more sighting makes a partition lead, or shrinks its deficit, even when a rival is promoted and the history wiped |
| EvaluatorRuns.BoundedRecovery | internal/controller/autoscaler/mostwantedtwophasehysteresisevaluation_controller.go:272-360 | If every observation from now on has one hash, then that partition is the projection and leads after max(1, M - c) of them |
| EvaluatorRuns.StaysLeading | internal/controller/autoscaler/mostwantedtwophasehysteresisevaluation_controller.go:272-360 | It stays the leader, and once published stays published |
| EvaluatorRuns.PublishedWhenDue | internal/controller/autoscaler/mostwantedtwophasehysteresisevaluation_controller.go:344-360 | Observed again, a leader is published now if the period of its direction has elapsed, and nothing is otherwise |
| EvaluatorRuns.PublishedIff | internal/controller/autoscaler/mostwantedtwophasehysteresisevaluation_controller.go:344-360 | A leader that keeps being observed is published if and only if it already is or some observation comes the period of its direction after the last promotion |
| EvaluatorRuns.Recovery | internal/controller/autoscaler/mostwantedtwophasehysteresisevaluation_controller.go:272-360 | Both together, from any sound history: leading after max(1, M - c) observations whatever is promoted meanwhile, and then published exactly when due |
| EvaluatorRuns.RecoveryBound | internal/controller/autoscaler/mostwantedtwophasehysteresisevaluation_controller.go:344-360 | Published at the latest by an observation that comes both periods after those first ones |
| EvaluatorTrace.StreakAlive | internal/controller/autoscaler/mostwantedtwophasehysteresisevaluation_controller.go:234-249 | A streak of sightings is alive if and only if the last one is within retention of the latest step |
| EvaluatorTrace.HistoryRefinesTrace | internal/controller/autoscaler/mostwantedtwophasehysteresisevaluation_controller.go:209-249 | In every reachable state the history represents the trace of observations since the last promotion |
| EvaluatorTrace.RecordIff | internal/controller/autoscaler/mostwantedtwophasehysteresisevaluation_controller.go:209-249 | A partition has a record if and only if one of the two periods, counted from its last sighting since the last promotion, is not over, and its count is the length of its current streak |
| ShardManager.ShardManagerReconciler.ReadSpec | internal/controller/autoscaler/secrettypeclustershardmanager_controller.go:158-183 | Reports a duplicate if and only if some UID is listed twice, and otherwise builds the UID-to-replica map |
| ShardManager.ShardManagerReconciler.ReadSecrets | internal/controller/autoscaler/secrettypeclustershardmanager_controller.go:185-230 | Succeeds if and only if every recorded number parses; then collects the shards and exactly the outdated secrets, updated |
| ShardManager.ShardManagerReconciler.WriteSecrets | internal/controller/autoscaler/secrettypeclustershardmanager_controller.go:232-252 | The updates before the first failing write are made and no others |
| ShardManager.ShardManagerReconciler.Reconcile | internal/controller/autoscaler/secrettypeclustershardmanager_controller.go:123-268 | The whole new state, under any fault; SecretWrittenIff and ReportedIff say secret by secret and field by field what that is |
| ShardManagerRuns.SecretWrittenIff | internal/controller/autoscaler/secrettypeclustershardmanager_controller.go:220-252 | A secret is rewritten if and only if it is outdated and fewer outdated ones precede it than writes succeed; then only its number changes, to that of its replica |
| ShardManagerRuns.ReportedIff | internal/controller/autoscaler/secrettypeclustershardmanager_controller.go:188-264 | Ready is reported if and only if the reconcile is complete, together with the spec as applied and the shards found, field by field and in order; a failing status write changes none of them |
| ShardManagerRuns.ReadyIff | internal/controller/autoscaler/secrettypeclustershardmanager_controller.go:233-264 | After any run of reconciles, ready if and only if the last one that reported anything was complete, or none did and it was ready before |
| ShardManagerRuns.ReadyMeansApplied | internal/controller/autoscaler/secrettypeclustershardmanager_controller.go:220-264 | Whatever failed on the way, becoming ready in a run means that every secret is as desired and the status is the spec |
| ShardManager.NothingWrittenUnless | internal/controller/autoscaler/secrettypeclustershardmanager_controller.go:163-217 | No secret is written unless the spec lists every shard once and every recorded number parses |
| ShardManager.StepApplies | internal/controller/autoscaler/secrettypeclustershardmanager_controller.go:220-264 | Every reconcile leaves each secret as it was or as desired; the status becomes the spec exactly on success |
| ShardManager.RetriesConverge | internal/controller/autoscaler/secrettypeclustershardmanager_controller.go:158-264 | After any run of partial failures the first success leaves every secret as a single clean reconcile would, status = spec, and the next run writes nothing; every listed secret then holds its number if and only if none started out with an alias of it |
| ShardManager.AgreesIff | internal/controller/autoscaler/secrettypeclustershardmanager_controller.go:224-228 | After the updates every listed secret holds its replica's number if and only if no recorded number is outside int32 with the wanted low 32 bits |
| ShardManager.TruncatedNumberAccepted | internal/controller/autoscaler/secrettypeclustershardmanager_controller.go:224-224 | A recorded number that differs by 2^32 is taken for the desired one and left in place |
| StatefulSets.StatefulSet.ScaleTo | internal/controller/autoscaler/replicasetscaler_controller.go:690-737 | The new object when the container is found, and what has changed in memory when it is not |
| StatefulSets.StatefulSet.NeedsDesiredStateEnforcement | internal/controller/autoscaler/replicasetscaler_controller.go:568-597 | The nested loops decide by the first entry in the first application container |
| StatefulSets.FirstEnvIs | internal/controller/autoscaler/replicasetscaler_controller.go:582-592 | That entry is the first of the variable in the first application container, even if there is none in it |
| StatefulSets.ScaledEnvIs | internal/controller/autoscaler/replicasetscaler_controller.go:696-723 | Every application container ends up with the variable, and with no other value for it |
| StatefulSets.ScaleToCloses | internal/controller/autoscaler/replicasetscaler_controller.go:568-597 | After a successful ScaleTo(n) enforcement is needed if and only if n > 0 and no replica is reported yet |
| StatefulSets.ScaleToFrame | internal/controller/autoscaler/replicasetscaler_controller.go:690-737 | No other container, variable or annotation changes, an entry is added only if there is none, and the restart annotation becomes the time if and only if a restart is asked for |
| Scaler.Reconciler.ScaleAndUpdate | internal/controller/autoscaler/replicasetscaler_controller.go:690-748 | The scaled object is written back, or nothing is |
| Scaler.Reconciler.StartScaling | internal/controller/autoscaler/replicasetscaler_controller.go:460-530 | The scaling phase, and recording the partition scaled to; RestartedWhenRecorded and ReconcileWrites say when pods are restarted |
| Scaler.Reconciler.Reconcile | internal/controller/autoscaler/replicasetscaler_controller.go:340-566 | The whole new state of one reconcile, in either mode and with any of its writes failing |
| ScalerWrites.ReconcileWrites | internal/controller/autoscaler/replicasetscaler_controller.go:340-566 | Object by object: exactly when the shard manager is given the partition, when the list last scaled to is replaced and by what, when pods are restarted, how many replicas the StatefulSet asks for, that nothing else changes, and what each reported reason says |
| ScalerWrites.RestartedWhenRecorded | internal/controller/autoscaler/replicasetscaler_controller.go:467-518 | In default mode a new list is recorded with a restart of the pods if and only if restarts are configured, whatever the number of replicas |
| Scaler.ReadyMeansAgreement | internal/controller/autoscaler/replicasetscaler_controller.go:415-565 | Ready is written only when partition, shard-manager spec and status and scaler status compare equal and StatefulSet spec, actual and variable equal the partition's size; and then it is written |
| Scaler.SerializeIsCanonical | internal/controller/autoscaler/replicasetscaler_controller.go:344-345 | Comparing canonical strings of well-formed partitions compares counts and assignments |
| XZeroY.SettledIsCalm | DESIGN.md:400-402 | In every state of a calm run in which all lists agree, as they do when ready, any change of partition is calm |
| XZeroY.StepApartIff | internal/controller/autoscaler/replicasetscaler_controller.go:344-535 | Whatever writes fail, a reconcile keeps reassignment and pods apart if and only if an explicit guard on the state before it is false |
| XZeroY.OthersApart | internal/controller/autoscaler/secrettypeclustershardmanager_controller.go:158-264 | No step of the shard manager, the pods, the provider or the secrets ever brings the two together |
| XZeroY.RunApartIff | DESIGN.md:400-402 | Over every run, under any provider changes and pod losses, the two stay apart throughout if and only if no reconcile of the scaler starts in a hazard |
| XZeroY.ManagerMoves | internal/controller/autoscaler/secrettypeclustershardmanager_controller.go:220-252 | A clean turn of the shard manager moves a shard if and only if it has something to write |
| XZeroY.ScalerInv | internal/controller/autoscaler/replicasetscaler_controller.go:340-566 | Every scaler reconcile, with any writes failing, keeps the stronger invariant of calm runs |
| XZeroY.ManagerInv | internal/controller/autoscaler/secrettypeclustershardmanager_controller.go:158-264 | So does every shard-manager reconcile |
| XZeroY.StepInv | internal/controller/autoscaler/replicasetscaler_controller.go:340-566 | So does every calm step of the system: scaler, shard manager, pods, provider, flags, secrets |
| XZeroY.XZeroYSafety | DESIGN.md:400-402 | Over every calm interleaving from a steady state: while pods exist or are wanted the shard manager has applied its spec and has nothing to write, and no step moves a shard |
| XZeroY.ReadyShardsExist | internal/controller/autoscaler/replicasetscaler_controller.go:537-565 | In agreement with nothing to write, a listed secret's recorded number is the one it is listed under, and below the replica count, if and only if it is no alias |
| OneValue.ScalerValueIff | internal/controller/autoscaler/replicasetscaler_controller.go:344-530 | A reconcile keeps the invariant behind the one-value promise if and only if it loses no record of a scale-out from two or more replicas to another non-zero number |
| OneValue.OneValueThroughout | DESIGN.md:404-406 | From a steady state, under any provider changes, pod losses and other failing writes, all the pods in existence run under one value of the variable |
| LostRecords.LostRecordBreaks | internal/controller/autoscaler/replicasetscaler_controller.go:344-413 | After a lost record a run follows, with no further fault, that ends with pods of two values |
| LostRecords.OneValueIff | DESIGN.md:404-406 | Whatever follows a reconcile, pods of two values never meet, if and only if the reconcile loses no such record |
| XZeroYLimits.OneReplicaExists | DESIGN.md:400-402 | An idle one-replica X-0-Y state with two other partitions to change to that place one of its secrets differently |
| XZeroYLimits.TwoReplicasExist | DESIGN.md:400-402 | An idle two-replica X-0-Y state with a partition of another size to change to |
| XZeroYLimits.ReturningBreaksIt | internal/controller/autoscaler/replicasetscaler_controller.go:344-346 | The provider returning to the old partition in mid-transition brings pods back with the other partition about to be applied, and a shard moves under them |
| XZeroYLimits.LosingTheLastPodBreaksIt | internal/controller/autoscaler/replicasetscaler_controller.go:346-413 | Losing the only pod around a change skips the scale-to-zero phase, and a shard moves under the pod that comes back |
| XZeroYLimits.StaleStatusBreaksIt | internal/controller/autoscaler/replicasetscaler_controller.go:443-458 | From an idle state: with one partition applied and the next written but not recorded, returning to the first starts pods, and a shard moves under them |
| XZeroYLimits.LostWriteBreaksIt | internal/controller/autoscaler/replicasetscaler_controller.go:518-527 | From an idle two-replica state: a calm transition whose last status write is lost leads to pods of two values |
| Convergence.TurnProgress | internal/controller/autoscaler/replicasetscaler_controller.go:340-566 | Every turn decreases a lexicographic measure or leaves it; the helpful actor's turn decreases it until ready |
| Convergence.Converges | internal/controller/autoscaler/replicasetscaler_controller.go:340-566 | In both modes, under every fair schedule and without faults, the scaler becomes ready in agreement and stays so |
| Convergence.ConvergesIff | internal/controller/autoscaler/replicasetscaler_controller.go:255-566 | That holds if and only if the shard manager's spec lists every shard once, every recorded number parses and there is a container to configure |
| RobustScaling.QuartilesOrdered | normalizers/robustscaling/robustscaling.go:129-160 | Q1 <= median <= Q3 on every sorted array of two or more |
| RobustScaling.MedianHalves | normalizers/robustscaling/robustscaling.go:127-139 | On a sorted array at least half of the values are at most the median, and at least half at least it |
| ScaledValues.QuartilesAt | normalizers/robustscaling/robustscaling.go:127-160 | The median and the quartiles by position: the means of the two positions that halve all values, the lower and the upper half |
| ScaledValues.QuartileHalves | normalizers/robustscaling/robustscaling.go:143-160 | Half of the lower half is at most Q1 and all the rest at least Q1, and Q3 mirrors it |
| RobustScaling.ScaleReflected | normalizers/robustscaling/robustscaling.go:59-87 | Negating a group negates its scaled values: median and quartiles treat both sides alike |
| RobustScaling.MapQuartiles | normalizers/robustscaling/robustscaling.go:143-160 | The quartiles, for either parity, commute with maps that keep midpoints |
| RobustScaling.AffineInvariant | normalizers/robustscaling/robustscaling.go:59-87 | Scaling is unchanged by x -> a·x + b, a > 0, applied to a whole group |
| RobustScaling.ScaleMonotone | normalizers/robustscaling/robustscaling.go:83-87 | A larger value is never scaled below a smaller one |
| ScaledValues.ScaledUnits | normalizers/robustscaling/robustscaling.go:59-87 | Where the quartiles differ, scaling is strictly increasing, takes the median to 0 and puts the quartiles exactly 1 apart; where they agree every value becomes 0 |
| ScaledValues.ScaledExactly | normalizers/robustscaling/robustscaling.go:59-87 | For every sorting of the group, the scaled value times the difference of the quartiles is the distance from the median |
| RobustScaling.ScaleOrderFree | normalizers/robustscaling/robustscaling.go:52-87 | The order of the values in a group is immaterial |
| Grouping.AddToGroup | normalizers/robustscaling/robustscaling.go:42-47 | One metric joins the group of its ID; the other groups stay |
| Normalizer.ScaleGroup | normalizers/robustscaling/robustscaling.go:52-101 | Every metric of the group, in order, with its scaled value |
| Normalizer.ScaleAll | normalizers/robustscaling/robustscaling.go:40-102 | Visiting the groups in any order yields every metric exactly once, scaled within its own group |
| Normalizer.AddOffset | normalizers/robustscaling/robustscaling.go:104-122 | Every value is shifted by the same offset, computed from the least and the greatest |
| Normalizer.Normalize | normalizers/robustscaling/robustscaling.go:34-125 | The scaled metrics, shifted if an offset is configured; NormalizedExactly says which values those are |
| ScaledValues.NormalizedExactly | normalizers/robustscaling/robustscaling.go:34-125 | The result is some order of the input with ID, shard and query kept and every value scaled so within its own group, as it is without an offset and lifted with one |
| Normalizer.NormalizeInvariant | normalizers/robustscaling/robustscaling.go:34-125 | Changing the unit and origin of one metric leaves every possible output as it was, with an offset or without |
| Normalizer.OffsetLifts | normalizers/robustscaling/robustscaling.go:104-122 | Every value ends up at least e·(max - min), the least exactly there, and all differences are kept |
| Normalizer.OffsetNonNegative | normalizers/robustscaling/robustscaling.go:104-122 | With e >= 0 no value is negative |
| LoadIndexer.GroupByShard | loadindexers/weightedpnorm/weightedpnorm.go:41-59 | The three maps: metrics by shard and ID, metrics by shard, and each shard as first seen |
| LoadIndexLaws.FirstOfShard | loadindexers/weightedpnorm/weightedpnorm.go:53-58 | The shard as first seen is that of its first metric in the list |
| LoadIndexer.Check | loadindexers/weightedpnorm/weightedpnorm.go:60-66 | Passes if and only if every shard has every weighted metric exactly once |
| LoadIndexer.LoadIndexOf | loadindexers/weightedpnorm/weightedpnorm.go:90-107 | The root of the weighted power sum over the metrics that have a weight |
| LoadIndexer.Calculate | loadindexers/weightedpnorm/weightedpnorm.go:36-88 | Succeeds if and only if that check passes, and then yields exactly one entry per shard UID with its value, in any order |
| LoadIndexLaws.OrderFree | loadindexers/weightedpnorm/weightedpnorm.go:41-106 | Reordering the metrics changes neither the check nor any shard's value |
| LoadIndexLaws.ResultsAgree | loadindexers/weightedpnorm/weightedpnorm.go:68-88 | Two results for the same metrics in different orders list the same shards with the same values |
| LoadIndexLaws.EachWeightOnce | loadindexers/weightedpnorm/weightedpnorm.go:60-104 | Once checked, the sum over the metrics is the sum over the weights: each enters once, nothing else does |
| LoadIndexLaws.NormIndex | loadindexers/weightedpnorm/weightedpnorm.go:90-107 | For every p >= 1 the load is the p-th root of the sum over the weights of weight times the p-th power of the one value of its metric |
| LoadIndexLaws.Homogeneous | loadindexers/weightedpnorm/weightedpnorm.go:95-106 | Multiplying every metric by one non-negative factor multiplies every load by it, for exact roots |
| LoadIndexLaws.IndexesNonNegative | loadindexers/weightedpnorm/weightedpnorm.go:95-106 | Loads are non-negative for p >= 1, non-negative weights, and values that are non-negative or p even |
| LoadIndexLaws.LinearIndex | loadindexers/weightedpnorm/weightedpnorm.go:95-106 | For p = 1 the load is the plain weighted sum |
| Pipeline.NormalizingKeepsLabels | normalizers/robustscaling/robustscaling.go:94-100 | Normalizing loses no shard and no metric: the load indexer accepts the result if and only if it would accept the input |
| Pipeline.LoadsNonNegative | normalizers/robustscaling/robustscaling.go:104-122 | With a non-negative offset and non-negative weights, every load is non-negative and every UID distinct: what the packing bounds ask for |
| Pipeline.PolledShardsAssigned | partitioners/longestprocessingtime/longestprocessingtime.go:36-95 | Exactly the shards for which anything was polled are assigned, each to one replica |
| Pipeline.PartitionWellFormed | partitioners/longestprocessingtime/longestprocessingtime.go:67-92 | What the partitioner returns is a partition the string comparisons can be trusted with |
| Pipeline.AppliedShardsExist | internal/controller/autoscaler/secrettypeclustershardmanager_controller.go:220-264 | In either mode, once the shard manager has applied its spec and everything agrees, a listed secret names the replica it is listed under, one that exists, if and only if it did not start out with an alias |

## Left out

- Time is an integer read once per reconcile, and observing reconciles are strictly later than one another; the rate limit of const.go:22 spaces them. The one-second resolution of stored timestamps is not modelled.
- The hash of the evaluator is any function of the canonical string that never yields the empty string; nothing here needs it to be injective.
- Loads and metric values are exact reals: float64 rounding, the parsing and printing of quantities and its errors, display values, and the MaxFloat64 start values of the offset loop are not modelled.
- `sort.Sort`, `sort.Strings` and `sort.Float64s` are one in-place sort known only to return a sorted permutation; which of the tied elements comes first stays open.
- LoadIndexer.LoadIndexOf: powers and roots are parameters standing for `math.Pow`; the laws that need more assume exact powers for p >= 1, roots that keep sign, for p = 1 the identity as root, and for Homogeneous roots that undo powers. p <= 0 is covered by no law.
- RobustScaling.ScaleMonotone: speaks of two values of the same group, since the code compares no others.
- Evaluator.Evaluation.Reconcile: starts from a history that is sound and older than `now`, which every run keeps (StepFresh); int32 overflow of the vote counts is not modelled, and a failed status write is no step at all.
- EvaluatorRuns.BoundedRecovery: like every lemma about leaders it assumes a positive retention period and a history as runs leave it; NothingWithoutRetention says what happens otherwise.
- Partitioner.InClusterLeadsIff: speaks of a single in-cluster shard; with several, only the shape of the result (LiftShape) is proved.
- PackingBound.PackingBound: assumes non-negative loads, which LoadsNonNegative supplies when an offset is configured.
- Scaler.Reconciler.Reconcile: is one atomic step over the current state, any of whose writes may fail; reads through a stale cache, and other controllers acting in the middle of a reconcile, are not modelled. Where the code dereferences an unset replica count of the StatefulSet the model makes no step.
- XZeroY.XZeroYSafety: speaks of calm runs; RunApartIff covers all others.
- XZeroY.RunApartIff: like every statement about runs it assumes that nobody else edits the StatefulSet or a recorded shard number, that the StatefulSet's status counts its pods at once, and that a secret appears under a UID the shard manager's spec does not list.
- Convergence.Converges: no faults, no pause, a ready provider with a fixed partition without repeated UIDs, and a StatefulSet whose replica count is set.
- Pipeline.PartitionWellFormed: up to 2^31 replicas, the range of replica IDs.
- Secrets without any data (the code would write to a nil map), and secrets edited by others while a reconcile runs.
- Exits for objects that do not exist, the check that only one mode is configured, pollers and their templates, metrics, events, logs, request mapping, leader election and `main`: plumbing without state of its own.
