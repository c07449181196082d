# Konstellation rollouts, verified

This project models the part of the Konstellation operator that moves an app from one release to the
next, and proves what that part promises. A reconcile reads the roles, traffic shares and pod counts of
the releases of an app target (newest first), picks a target, raises its pods and traffic in steps of 25
percent behind a clock gate, promotes it or falls back, drains the other releases, and repairs the total
of the shares. Around it the model covers finding or creating the release for the current hash, pruning,
the release controller that reports states and times back, the autoscaler hand-off, the Istio routes, and
three companions: certificates for the load balancer, container environments and config digests, and the
kubeconfig rewrite.

There are two layers. `DeployReleases` is the rollout on heap objects updated in place, where the active
release may be the same object as the target. `Rollout.Step` is the same reconcile as a function on values,
and the method is proved to do exactly what it says. `StepLaws` proves what one un-gated reconcile (one
that passes both early returns) guarantees from any starting state. `Runs` and the files built on it prove
statements about every sequence of reconciles of both controllers, user actions and passing time.

| file | about |
|---|---|
| `Model.dfy`, `Rollout.dfy` | releases, app targets, and one reconcile as a function |
| `DeployReleases.dfy` | the reconcile on the heap, and its refinement of `Step` |
| `StepLaws.dfy`, `StepFields.dfy` | conservation, roles, capacity, fixed point, halt, wake-ups; and every field of the outcome in numbers |
| `Sorting.dfy`, `Selection.dfy` | newest-first order, find or create, pruning |
| `ReleaseController.dfy`, `Autoscaler.dfy` | the release status machine and the autoscaler hand-off |
| `Runs.dfy`, `RolloutRuns.dfy` | whole runs: conservation, slow ramp, pacing |
| `Draining.dfy`, `Capacity.dfy`, `Stalled.dfy` | whole runs: what a replaced release keeps, pods for all traffic, and a release that does not come up |
| `Convergence.dfy`, `Tightness.dfy` | whole runs: how many reconciles a rollout takes, and that no fewer do |
| `Routing.dfy`, `Splits.dfy`, `Deployment.dfy` | routes and subsets, who gets what share through them, and a whole reconcile end to end |
| `Certificates.dfy`, `Environment.dfy`, `Digests.dfy`, `Kubeconfig.dfy` | the companions |

## Reading the model

- Arithmetic is exact: the `float32` expressions are rationals whose fraction is dropped on conversion,
  integers do not overflow, and times are integers in nanoseconds. Conservation of traffic does not depend
  on this, because it holds for any share a plan gives the target.
- The CPU request an autoscaler needs is always present: asking for a missing one yields zero, not nil.
- A zero time is older than any timeout, and a reconcile reads the clock once (`now`).
- The release a reconcile may create is a parameter, with the hash, config name and empty spec that
  controllers/deployment_apprelease.go:428-456 gives it.
- One reconcile is one atomic, error-free step on what the cluster stores. Releases with equal creation
  times are listed in the order in which they are stored.
- Updating a replica set sets its pod count and reads it back; everything the cluster reports (pods ready,
  pods available, oldest pod) is an arbitrary input of each release reconcile.

## Where the code differs from what it says or suggests

- A replaced release keeps its pods for a readiness timeout only as long as no reconcile deletes it as old
  (`ReplacedReleaseDrains` says exactly when). One that is neither among the ten newest nor younger than 48
  hours goes with its pods in the very reconcile that replaces it (`DeletedWhenReplaced`), for example when
  an app with ten newer releases is halted (`CrowdedOutOnHalt`).
- An active release that is replaced while its recorded state is still `retiring` is not drained: its old
  change time counts (`DrainClock` is the exact rule), and its pods can go at once (`StaleRetiringLosesPods`).
- A replica set of the active, labelled release that stands at 0 pods is left as it is, although the guard at
  controllers/apprelease_controller.go:98 reads as if it should be written: the object saved back is the one
  just read (`LeftAsItIs`). When that release wants no pods its replica set is deleted all the same, so in halt
  mode an autoscaler stays behind for a replica set that is gone (`ScalerOverDeletedSet` says exactly when).
- Rolling back the release an autoscaler scales gives its replica set two writers until the next deployment
  reconcile (`RollbackMakesTwoWriters`).
- While two releases share the traffic, the internal route of a port only one of them exposes sums to less
  than 100 (`InternalRouteSums`), and a port exposed by several releases is routed several times
  (`InternalPorts`).
- Custom load balancer annotations of requests are never taken over (`ConfigureIngress`), because the
  variable that would hold them is only set when it is already set.
- Keys and values run together in the config digest, so different configs can share a config map name
  (`DigestsCollide`, with shared configs, whose YAML text becomes a value as it is). With the same keys this
  takes '=' in the values of two of them (`DigestTellsValues`); with different keys and no '=' in any value it
  takes keys that end alike (`DigestTellsKeys`); with any values the same first key is enough
  (`DigestTellsFirstKey`). Changing a single value always shows (`OneEditShows`).
- Context names would be ambiguous for two clouds one of which is named like the beginning of the other up to
  a dash, and only for those (`NamesAreUnambiguous`). The one cloud there is today, "aws"
  (cmd/kon/providers/aws/manager.go:691-693), cannot be mixed up.
- When the last port of an app goes, its virtual service outlives the service by one reconcile and the
  destination rule is never deleted (`RoutesOutliveService`).
- An active release pushed out of the ten newest is lost to routing; `RoutedTotal` is the exact condition.

## Model

| member | source | states |
|---|---|---|
| DeployReleases.DeployReleases | controllers/deployment_apprelease.go:140-365 | fails exactly on an empty list; otherwise releases, target status and requeue delay on the heap end up as the step function says, aliasing of active and target included |
| DeployReleases.FindRoles | controllers/deployment_apprelease.go:152-158 | the last holder of each role wins, null when there is none |
| DeployReleases.GetFirstDeployableRelease | pkg/resources/apprelease.go:161-169 | the first release not marked bad, null when all are |
| DeployReleases.ChooseReleases | controllers/deployment_apprelease.go:182-271 | active and target object, share, pods and flags are those of the plan, whose numbers `StepFields.TargetPods`, `SharesOfStep` and `StatusOfStep` pin down, and only the target's pods change |
| DeployReleases.RampTarget | controllers/deployment_apprelease.go:228-258 | raises the target's pods, never lowers them, and returns its new share, with the numbers of `StepFields.TargetPods` and `SharesOfStep` |
| DeployReleases.UpdateReleases | controllers/deployment_apprelease.go:273-326 | every release gets its new role, share and pods, and the total returned is that of the new shares |
| DeployReleases.LabelTarget | controllers/deployment_apprelease.go:328-335 | the target label ends up on the target and nowhere else, nothing else changes |
| DeployReleases.CorrectTotal | controllers/deployment_apprelease.go:337-341 | what the total is off 100 is taken out of the target's share |
| DeployReleases.UpdateStatus | controllers/deployment_apprelease.go:343-363 | names, change time, phase and counters of the target status |
| StepLaws.PlacedAsIntended | controllers/deployment_apprelease.go:273-341 | shifting and then repairing the total equals a closed form with no repair: 100 for a sole active target, share and 100 minus share otherwise, 0 for all others |
| StepLaws.Conservation | controllers/deployment_apprelease.go:273-341 | the shares total 100 for every share a plan may give the target |
| StepLaws.TrafficTotals100 | controllers/deployment_apprelease.go:182-341 | every un-gated reconcile leaves the shares totalling exactly 100, from any roles, shares and statuses |
| StepLaws.SharesInRange | controllers/deployment_apprelease.go:248-258 | all shares lie in 0..100 iff, when another release stays active, the target's old share and available pods were not negative beyond one increment |
| StepLaws.PlanActive | controllers/deployment_apprelease.go:182-271 | the target takes over exactly when nothing is wanted, nothing is active, it is active already, or it has all traffic; otherwise the active release stays and the ramp goes on |
| StepLaws.RoleDiscipline | controllers/deployment_apprelease.go:275-335 | after an un-gated reconcile exactly one release is active, a target role exists iff the target differs from it, the label is on the target alone, the target is the newest good release, and bad releases stay bad without traffic or pods |
| StepLaws.BadStaysDown | controllers/deployment_apprelease.go:302-304 | no reconcile, gated or not, clears a bad role or raises a bad release's traffic |
| StepLaws.NoCapacityDip | controllers/deployment_apprelease.go:284-294 | in the second of two reconciles with any reports in between, available target pods plus the pods asked of the active release cover the demand iff the target's pods covered its old share (or the rest is worth less than a pod) |
| StepLaws.CapacityInRamp | controllers/deployment_apprelease.go:228-294 | the same for a single ramping reconcile from shares that total 100 |
| StepLaws.CapacityCovered | controllers/deployment_apprelease.go:286-292 | the same balance in numbers |
| StepLaws.ShareIsBacked | controllers/deployment_apprelease.go:248-258 | a ramping target's share of the demand never exceeds its available pods |
| StepLaws.SettledIsFixed | controllers/deployment_apprelease.go:225-347 | a settled target is a fixed point: no release changes and the change time stays |
| StepLaws.SettledWritesNothing | controllers/deployment_apprelease.go:91-116 | the save loop then writes no release |
| StepLaws.SettlesOnceDrained | controllers/deployment_apprelease.go:305-324 | once the other releases are out of use for longer than the timeout, a reconcile with the target active settles everything |
| StepLaws.HaltDrains | controllers/deployment_apprelease.go:215-324 | after one un-gated reconcile in halt mode the next is never gated, keeps traffic at 100, and leaves no pods anywhere iff the change times of the other releases that are not bad and still want pods are past the timeout |
| StepLaws.NoLostWakeup | controllers/deployment_apprelease.go:265-324 | no call-back is asked for iff the target is active and no other release keeps pods |
| StepLaws.GateOpensOnTime | controllers/deployment_apprelease.go:164-174 | a gated reconcile changes nothing and asks to be called back at the moment the gate opens |
| StepLaws.DemandIsClamped | api/v1alpha1/apptarget_types.go:124-136 | the demand is 0 when halted; otherwise the known count when it lies between the bounds, the lower bound when it lies below, and the upper bound when it lies above or the bounds are out of order |
| StepLaws.TimeoutIsPositive | api/v1alpha1/app_types.go:338-348 | the readiness timeout is at least a second for non-negative probe timeouts |
| StepLaws.StatusTellsRoles | controllers/deployment_apprelease.go:343-363 | the status names the releases that now hold the roles, and says running iff nothing is being moved towards and the target has its pods |
| StepFields.GateOfStep | controllers/deployment_apprelease.go:152-180 | a reconcile goes ahead unless an active and a target release exist and the last change is less than a timeout old, or all releases are bad; then it changes nothing, and asks to be called back at the end of the timeout or not at all |
| StepFields.RolesOfStep | controllers/deployment_apprelease.go:182-335 | roles, label and identity of every release after an un-gated reconcile, read off the roles, traffic and demand before |
| StepFields.TargetPods | controllers/deployment_apprelease.go:215-264 | the target's pods after every un-gated reconcile, a takeover included: the demand when nothing else is active or nothing is wanted, otherwise the larger of the old count and the smaller of the demand and available pods plus one step, a step being a quarter (without ports all) of the demand, rounded down but at least one |
| StepFields.NoPodsOnStalled | controllers/deployment_apprelease.go:234-246 | the target never loses pods, and gets more only up to one step above those available |
| StepFields.PodsOfOthers | controllers/deployment_apprelease.go:284-324 | pods of all other releases: the old share of the demand for the release that stays active, none for bad ones, and otherwise unchanged iff the release was active or changed state within a timeout |
| StepFields.SharesOfStep | controllers/deployment_apprelease.go:215-341 | all for a target that is active next, otherwise the percentage of its pods that are available but at most a step more than before, the rest for the active release, and nothing for others |
| StepFields.StatusOfStep | controllers/deployment_apprelease.go:343-363 | the change time moves to now iff the target changes, takes over, or has its pods raised or dropped, or there was no time; the counters are the target's own iff it is the saved active release |
| StepFields.DelayOfStep | controllers/deployment_apprelease.go:265-324 | the delay asked for is one readiness timeout |
| StepFields.TimeoutIs | api/v1alpha1/app_types.go:338-348 | which is the initial delay of the readiness probe, or else its period and timeout together, or else a minute |
| StepFields.TruncateDropsFraction | controllers/deployment_apprelease.go:230-286 | conversions to integers drop the fraction towards zero |
| Sorting.SortIsStable | pkg/resources/apprelease.go:114-125 | sorting sorts, is a permutation, and keeps the order of elements that compare equal |
| Sorting.SortedIsUnique | pkg/resources/apprelease.go:114-125 | there is only one stable way to sort |
| Selection.OrderingByLatest | pkg/resources/apprelease.go:114-125 | the comparator is a strict weak order, the sorted list is the one stable rearrangement by it, and has unsaved releases first and then creation times going down |
| Selection.SelectReleases | controllers/deployment_apprelease.go:47-89 | the search loop keeps a newest matching release, forces back an older one, and creates a missing one |
| Selection.HeadIsCurrent | controllers/deployment_apprelease.go:47-89 | the list to deploy is headed by a release with the current hash and config name, and is the sorted list with the new release in front iff the newest release has another hash or config name |
| Selection.ForcedBack | controllers/deployment_apprelease.go:52-74 | a release is deleted to be forced back iff it is the first listed one with that hash and config name, and not the newest |
| Selection.DeploysCurrent | controllers/deployment_apprelease.go:88-201 | an un-gated reconcile of it labels and moves towards a release with the current hash and config name, unless that release is marked bad |
| Selection.PruneReleases | controllers/deployment_apprelease.go:118-133 | the deletion loop leaves the survivors, and the list to go on with is the ten newest |
| Selection.PruningKeepsPrefix | controllers/deployment_apprelease.go:118-133 | survivors are a prefix of the list: exactly the ten newest and everything younger than 172800 seconds |
| Selection.RoutedOfSurvivors | controllers/deployment_apprelease.go:118-134 | the list to go on with is the ten newest of those stored |
| Selection.RoutedTotal | controllers/deployment_apprelease.go:118-134 | the list passed to routing totals 100 iff the active release is among the ten newest, or the target is and has all traffic |
| Selection.PruningSparesTraffic | controllers/deployment_apprelease.go:118-133 | with the active release among the ten newest no release with traffic is deleted |
| ReleaseController.Reconcile | controllers/apprelease_controller.go:89-192 | replica set left behind, state, change time and pod counts of a release, step by step |
| ReleaseController.LeftAsItIs | controllers/apprelease_controller.go:89-112 | a reconcile leaves an existing replica set as it is iff the release wants pods and is the active labelled one or has its pod count already |
| ReleaseController.LeftAloneIffAutoscaled | controllers/apprelease_controller.go:89-112 | a release's replica set is left alone whatever it looks like iff the release is the active labelled one and wants pods |
| ReleaseController.PodsReported | controllers/apprelease_controller.go:89-123 | pod counts reported and replica set left behind, from the replica set found: an autoscaled release keeps it, an unwanted one has none, a new one has the pods wanted and none up |
| ReleaseController.StateTells | controllers/apprelease_controller.go:125-182 | exactly when each state is reported |
| ReleaseController.ChangeTime | controllers/apprelease_controller.go:146-182 | the change time is now iff the release is unsaved or the state, failures aside, is not the one recorded |
| ReleaseController.ResyncKeepsTime | controllers/apprelease_controller.go:146-182 | seeing the same pods again keeps the change time, except that a failed release is stamped anew |
| Autoscaler.ReconcileAutoScaler | controllers/deployment_apprelease.go:372-426 | the stored autoscalers afterwards, for any listing order |
| Autoscaler.SingleWriter | controllers/deployment_apprelease.go:372-424 | an autoscaler is left only when no release is being moved towards, and scales the labelled active release, whose replica set the release controller then leaves alone iff that release wants pods |
| Autoscaler.ScalerOverDeletedSet | controllers/deployment_apprelease.go:207-224 | after an un-gated reconcile with the active release among the ten newest an autoscaler stands beside a replica set that the release controller deletes iff an autoscaler is wanted and the demand is nothing |
| Autoscaler.ScalerIffAtRest | controllers/deployment_apprelease.go:372-424 | after an un-gated reconcile with the active release among the ten newest an autoscaler exists iff one is wanted and no rollout is under way, and it scales the target |
| Autoscaler.ScalersStored | controllers/deployment_apprelease.go:372-466 | for any releases: autoscalers exist iff processor use is a target, the bounds differ, and a release is active while none is being moved towards; the app's own one is for that release, and of the others exactly those labelled with it stay |
| Autoscaler.ScalerBounds | controllers/deployment_apprelease.go:458-466 | an autoscaler scales the release on its label within the wanted bounds, corrected to at least one pod and to be in order |
| Runs.OrderlyNext | controllers/deployment_apprelease.go:27-135 | newest-first order, non-negative numbers and target-before-active are kept by every action of users, controllers and clock |
| Runs.TrafficConservedForever | controllers/deployment_apprelease.go:182-341 | in every run, once one reconcile has passed the gate all shares stay in 0..100 and total 100, as long as what carries traffic is among the ten newest |
| Runs.ReconcileAsActions | controllers/deployment_apprelease.go:27-135 | find or create, deploy, save and prune is one deploy, preceded by a new release exactly when the head is not current |
| RolloutRuns.SlowRamp | controllers/deployment_apprelease.go:207-270 | in every undiverted run a release starting without traffic has at most 25k percent after k un-gated reconciles, and another one is active through the first four |
| RolloutRuns.TakesOverAtFullTraffic | controllers/deployment_apprelease.go:260-270 | a target takes over from a working active release exactly in a reconcile it enters with all traffic |
| RolloutRuns.RampGrowth | controllers/deployment_apprelease.go:228-301 | a ramp step adds at most one increment to the target's share |
| RolloutRuns.NextUngatedIsLater | controllers/deployment_apprelease.go:164-174 | while a rollout is under way the gate stays shut for a full timeout after its last change, in every run |
| RolloutRuns.RaisesArePaced | controllers/deployment_apprelease.go:241-347 | after pods of a target were raised while another release is active, no reconcile passes the gate before a readiness timeout has gone by |
| Draining.PresentInRun | controllers/deployment_apprelease.go:118-133 | in every run a release that is left alone is still there at the end iff it was at the start and every deployment reconcile found it among the ten newest or younger than 48 hours |
| Draining.ReplacedReleaseDrains | controllers/deployment_apprelease.go:118-324 | until a readiness timeout after the release controller's first look, a replaced release not recorded as retiring before has all its pods, and is there iff no reconcile deleted it as old, in every interleaving that leaves it alone |
| Draining.DrainClock | controllers/deployment_apprelease.go:305-324 | in every run a reconcile leaves the replaced release its pods iff it does not pass the gate or the clock has not run out, which starts at the first look or, if the release was recorded as retiring when replaced, at the time recorded |
| Draining.DeletedWhenReplaced | controllers/deployment_apprelease.go:118-133 | the reconcile that replaces a release deletes it iff it is neither among the ten newest nor young |
| Draining.CrowdedOutOnHalt | controllers/deployment_apprelease.go:118-224 | a halted app with eleven old releases where that happens |
| Draining.StaleIsNotDrained | controllers/apprelease_controller.go:125-151 | a release recorded as retiring for longer than the timeout before a target takes over from it loses its pods in the next reconcile, at the same moment |
| Draining.StaleRetiringLosesPods | controllers/apprelease_controller.go:146-151 | a concrete run in which that happens to three pods |
| Capacity.CoveredAfterRamp | controllers/deployment_apprelease.go:228-341 | a reconcile that ramps on, from any roles and shares, leaves shares of 100 in all and the target's backed by its available pods |
| Capacity.CapacityHeld | controllers/deployment_apprelease.go:182-341 | in every run after that with the same demand and no pods of the target going away, each ramping reconcile leaves available target pods and pods asked of the active release covering the demand |
| Stalled.StalledStaysDown | controllers/deployment_apprelease.go:228-264 | in every run in which no pod of the new release comes up it is asked for no more than one step of pods (or than it began with), never takes over, and after one un-gated reconcile leaves all traffic to the active release |
| Convergence.RampRaises | controllers/deployment_apprelease.go:228-258 | one ramp step raises the guaranteed pods and share, given that the pods asked for before are up |
| Convergence.DemandIsFrozen | controllers/deployment_apprelease.go:358-363 | while another release is active a reconcile does not change the demand |
| Convergence.RolloutConverges | controllers/deployment_apprelease.go:206-271 | nine un-gated reconciles (three without ports) make the newest good release the one active release with all traffic, from any state and for any number of pods |
| Tightness.NoEarlyTakeover | controllers/deployment_apprelease.go:228-271 | without rollback, retargeting or extra pods another release is still active after c un-gated reconciles whenever c - 2 pod increments fall short of the demand, in every run |
| Tightness.NoFasterThanBound | controllers/deployment_apprelease.go:228-271 | so with seven pods the first eight un-gated reconciles, and without ports the first two for any demand, leave another release active in every such run |
| Tightness.BoundIsTight | controllers/deployment_apprelease.go:206-271 | nine (three) is tight: from every such world some run meets the conditions of the convergence theorem, has one un-gated reconcile less, and does not converge |
| Tightness.FreshWorldIsBehind | controllers/deployment_apprelease.go:206-271 | such worlds exist for every number of pods: a new release beside an active one with all traffic |
| Routing.FilterWithTraffic | controllers/deployment_controller.go:114-117 | exactly the releases with a positive share, in order |
| Routing.WithTrafficMembers | controllers/deployment_controller.go:114-117 | a release is routed to iff it is on the list with a positive share |
| Routing.NewDestinationRule | controllers/deployment_service.go:166-179 | one subset for each release, by name |
| Routing.CollectPorts | controllers/deployment_service.go:220-227 | all exposures of ports, and under each port the releases exposing it, as often as they do |
| Routing.FindIngressPort | controllers/deployment_service.go:261-270 | the loop finds the ingress port |
| Routing.IngressPortChoice | controllers/deployment_service.go:261-270 | it is the first port with the wanted name, or the first non-zero one when none has it |
| Routing.NewIngressMatches | controllers/deployment_service.go:273-298 | a prefix match for each path but the root, and the default match when there is no path or the root is one |
| Routing.IngressMatchesPaths | controllers/deployment_service.go:273-298 | a path is matched iff it is configured and not the root, everything is iff there is no path or the root, and something always is |
| Routing.NewVirtualService | controllers/deployment_service.go:204-318 | internal routes for the sorted ports, then the external route if there is an ingress port, destination by destination as `Splits.RoutesSplitByShares` describes |
| Routing.SubsetsAreDeclared | controllers/deployment_service.go:166-318 | every destination of every route names a subset of the destination rule |
| Routing.InternalPorts | controllers/deployment_service.go:220-257 | internal routes come in ascending port order, one for each exposure |
| Routing.InternalWeight | controllers/deployment_service.go:235-257 | an internal route's weights sum to the shares, each counted as often as its release exposes the port |
| Routing.InternalRouteSums | controllers/deployment_service.go:235-257 | with no port exposed twice by a release, they sum to 100 iff every traffic-carrying release exposes the port |
| Routing.ExternalRouteSums | controllers/deployment_service.go:300-317 | after an un-gated reconcile with the active release among the ten newest the external route's weights sum to 100 |
| Splits.ServingReleases | controllers/deployment_controller.go:114-117 | the releases routed to are exactly those with a positive share, in order |
| Splits.IngressPortIs | controllers/deployment_service.go:261-270 | external traffic goes to the first port with the wanted name, or the first non-zero one when none has it, or nowhere |
| Splits.ExternalSplit | controllers/deployment_service.go:259-318 | there is an external route iff the ingress has a port to go to; it comes last, matches the configured paths, and has one destination for each serving release, with its name and share |
| Splits.InternalSplit | controllers/deployment_service.go:220-257 | each port has as many internal routes as the releases expose it, each with a destination for every exposure, with the release's name and share |
| Splits.RoutesSplitByShares | controllers/deployment_service.go:204-318 | all of this for the whole virtual service, whose internal routes come in ascending port order and which has no other routes |
| Deployment.DeployValues | controllers/deployment_apprelease.go:96-100 | the heap rollout agrees with the step function on any list of release values |
| Deployment.Controller.Reconcile | controllers/deployment_controller.go:80-126 | the phases in order: releases, status, autoscalers, service, destination rule and virtual service stored afterwards, each pinned down by the next five rows |
| Deployment.StoredAsRun | controllers/deployment_apprelease.go:27-135 | releases and status stored by a whole reconcile, and its delay, are those of a deploy, preceded by a new release iff the newest one has another hash or config name |
| Deployment.StoredScalers | controllers/deployment_apprelease.go:372-466 | the autoscalers stored, exactly, read off the releases stored |
| Deployment.StoredScalersAtRest | controllers/deployment_apprelease.go:372-402 | when it passes the gate with the active release among the ten newest, some are stored iff one is wanted and no rollout is under way |
| Deployment.RoutesFollowReleases | controllers/deployment_controller.go:100-126 | gated or not, the service is stored iff the app has ports, subsets are the names of the serving releases among the ten newest stored, and routes split traffic between them by their shares |
| Deployment.StoredHandOver | controllers/deployment_apprelease.go:372-424 | after every run the autoscalers stored have one labelled active release of those stored to themselves until the next reconcile, unless it is rolled back |
| Deployment.RoutesCarryAllTraffic | controllers/deployment_controller.go:80-126 | end to end, an un-gated reconcile stores routes that split traffic between the serving releases by shares of 100 in all, with an external route iff the app has an ingress port and all destinations declared |
| Deployment.RoutesInEveryRun | controllers/deployment_controller.go:80-126 | the same for the reconcile that follows any run of users, controllers and clock |
| Deployment.SingleWriterInEveryRun | controllers/deployment_apprelease.go:372-424 | after every run the autoscalers a reconcile leaves have a single labelled active release to themselves, and keep it through whatever follows until the next deployment reconcile, unless that release is rolled back |
| Deployment.RollbackMakesTwoWriters | controllers/apprelease_controller.go:89-112 | once it is rolled back the release controller sets the pod count too |
| Deployment.RoutesOutliveService | controllers/deployment_service.go:25-136 | without ports the virtual service goes one reconcile after the service, and the destination rule stays |
| Certificates.CertificateCovers | pkg/resources/certificate.go:68-90 | covers iff the names are equal, the certificate is the wildcard directly under the host, or only the first labels differ and the certificate's is a star (the apex case goes beyond section 6.4.3 of RFC 6125) |
| Certificates.BestLastsLongest | pkg/resources/certificate.go:44-55 | a host gets a certificate iff one covers it, and then the first covering one that no other outlives |
| Certificates.GetCertificatesForHosts | pkg/resources/certificate.go:39-57 | the map built by the nested loops holds exactly the best certificate of each host |
| Certificates.CollectHosts | pkg/components/ingress/alb_ingress.go:150-170 | each host once in order of first occurrence, HTTPS required iff a request does, custom annotations never set |
| Certificates.HostsOfRequests | pkg/components/ingress/alb_ingress.go:150-170 | a host is collected iff some request is for it |
| Certificates.FirstOccurrences | pkg/components/ingress/alb_ingress.go:150-170 | in order of first occurrence |
| Certificates.ConfigureIngress | pkg/components/ingress/alb_ingress.go:106-248 | TLS hosts, duplicate-free certificate list, listeners and redirect in terms of requests and covering certificates |
| Environment.CollectEnv | controllers/apprelease_controller.go:267-301 | the loops append the release's own variables, then config entries, then dependency variables not set before |
| Environment.Precedence | controllers/apprelease_controller.go:267-301 | own variables beat config entries and those beat dependency variables, and nothing else gets in |
| Environment.NewEnv | controllers/apprelease_controller.go:267-305 | the list is a rearrangement of the collected variables sorted by name |
| Environment.BeforeIsLexicographic | controllers/apprelease_controller.go:303-305 | names are compared as strings: a prefix first, otherwise by the first character that differs |
| Environment.EnvIsDetermined | controllers/apprelease_controller.go:267-305 | the list is the same for every walk through the config map and every way of sorting iff no name has two values |
| Environment.UniqueNamesSuffice | controllers/apprelease_controller.go:267-301 | which holds when names are unique within the own and within the dependency variables |
| Environment.DigestInput | pkg/resources/appconfig.go:135-142 | the hashed text is every key with its value in sorted key order |
| Environment.DigestIsDetermined | pkg/resources/appconfig.go:135-142 | it depends only on the contents of the config map |
| Environment.OneEditShows | pkg/resources/appconfig.go:139-141 | changing a single value changes it |
| Environment.DigestsCollide | pkg/resources/appconfig.go:118-142 | two different sets of shared configs, and no app config, with the same hashed text |
| Digests.DigestTellsValues | pkg/resources/appconfig.go:135-142 | for config maps with the same keys, equal texts mean equal maps iff at most one of the keys may have an equals sign in its value |
| Digests.DigestTellsKeys | pkg/resources/appconfig.go:135-142 | without equals signs, two sets of keys have config maps with the same text iff they are as many, start with the same key, and of any two in the same place one ends with the other |
| Digests.DigestTellsFirstKey | pkg/resources/appconfig.go:135-142 | with any values, two sets of keys have config maps with the same text iff the first key is the same |
| Kubeconfig.KubeConfig.Update | pkg/resources/kubeconfig.go:36-101 | drops our entries, keeps the others, appends the given clusters and selects one |
| Kubeconfig.KubeConfig.ContainsClusters | pkg/resources/kubeconfig.go:103-121 | true iff every named cluster has a context |
| Kubeconfig.ForeignIsKept | pkg/resources/kubeconfig.go:41-58 | all entries of other tools are kept in order |
| Kubeconfig.ForeignEntries | pkg/resources/kubeconfig.go:41-58 | what is kept is exactly the entries without our prefix, in order |
| Kubeconfig.WrittenEntries | pkg/resources/kubeconfig.go:67-100 | cluster, user and context written for each cluster, field by field, and the selected one as current context |
| Kubeconfig.CurrentStays | pkg/resources/kubeconfig.go:63-65 | with nothing selected the current context stays unless it was ours |
| Kubeconfig.UpdateIsIdempotent | pkg/resources/kubeconfig.go:36-101 | writing the same clusters again changes nothing |
| Kubeconfig.ContainsExactlyWritten | pkg/resources/kubeconfig.go:36-121 | after a rewrite the check passes iff every cluster asked for was written under that context name |
| Kubeconfig.ContainsExactlyListed | pkg/resources/kubeconfig.go:36-121 | with one cloud, or clouds that are not nested, the check passes iff every cluster asked for was itself among those written |
| Kubeconfig.NamesAreUnambiguous | pkg/resources/kubeconfig.go:123-125 | context names tell the clusters of two clouds apart iff neither cloud name with a dash begins the other |
| Kubeconfig.NestedClash | pkg/resources/kubeconfig.go:123-125 | otherwise every cluster of one cloud shares its context name with a cluster of the other |

## Left out

- Kubernetes calls, caches, conflicts, watches, retries and logging: a reconcile is one error-free step.
- `float32` rounding, truncation of stored times to seconds and `int32` overflow.
- Deployment.Controller.Reconcile: when an older release is forced back, the deleted object stays on the list in memory and the model stores it again; what the cluster holds after that path is not claimed.
- Reflection in `updateResource` and the merging of specs: updating a replica set sets its pod count, updating an autoscaler sets its target and bounds.
- Deployments that serve several app targets, and the label selectors that keep them apart.
- SHA-1, YAML and JSON encoding, release names built from hashes: hashes and names are opaque strings.
- The merge of base and target configs and the renaming of shared configs: a config map is given by its contents.
- `ScaleSpecForTarget`, `EnvForTarget`, `TopLevelDomain` and other lookups and defaults: easy members.
- Writing the redirect rule and annotations into the ingress object: the parts are computed, not stored.
- Pod error messages, Prometheus objects, node pools, cluster configuration, the command line, AWS and Terraform.
