# Model of the Cluster API provider for OpenStack

This project models the controllers and API conversions of cluster-api-provider-openstack and
proves what they keep over whole runs. The controllers read persisted objects, cause effects in
OpenStack, change their working copy and patch it back. Each is a class whose methods follow the Go
code step by step. Every call to the API server or to OpenStack may fail, with or without having
taken effect; a crash is such a failure with no patch after it. Users and the other controllers act
between calls. What must hold in every state, and not only at the end, is stated over a ghost record
that every effect extends and that ends with the present state: the contracts say that it only grows.
What a controller gets done is stated for reconciles that nothing disturbs: the controllers of pool,
server, machine and bastion then reach their goal in two or three rounds (`Converge`, `TearDown`).

| file | part |
|---|---|
| `PoolAllocation.dfy`, `PoolController.dfy` | floating IP pool: the lists, `getIP`, release, claims, deletion |
| `ServerPorts.dfy`, `ServerController.dfy` | OpenStackServer: write-ahead creation, adoption, deletion |
| `MachineEvents.dfy`, `MachineController.dfy` | OpenStackMachine beside the cluster and server controllers; wake-ups |
| `ServerSpecs.dfy`, `Bastion.dfy` | translation into server specs; the cluster's bastion |
| `ClusterSpecConversion.dfy`, `ClusterSpecMeaning.dfy`, `ClusterSpecConverters.dfy`, `ClusterTemplateConversion.dfy` | v1beta1 and v1beta2 |
| `FailureDomains.dfy`, `Tags.dfy` | map and sorted list; tag lists and text |
| `AddressPairs.dfy` | propagation of allowed address pairs |
| `Common.dfy` | options, results, list facts |

## Results that limit the code

- A pool can hand out one address twice if OpenStack creates a floating IP under an address that is
  still listed as free: `PoolAllocation.StaleEntryIsHandedOutTwice`. `SeparationExactly` gives the exact condition.
- `getIP` can go over MaxIPs after a free address turned out not to exist: `PoolAllocation.LimitIsExceeded`;
  `LimitExceededExactly` says when.
- If somebody else deletes a recorded port of a server, every reconcile creates another port, records
  none of them, and the deletion leaves them all: `ServerPorts.LostPortIsReplacedAndLeftBehind`. A
  creation step keeps ports within reach exactly if the recorded port exists
  (`EnsureStepKeepsReachExactly`), and a whole pass leaves all ports recorded exactly if each recorded
  one exists and no other port has its name (`EnsurePassRecordsAllExactly`).
- A server deletion pass that deletes a port, fails and does not get its status written can leave a
  later port behind for good: `ServerController.UnrecordedDeletionLeaksPort`, a server whose stored
  resources are there and empty. A server with no resources stored behaves differently
  (`MissingResourcesDoNotLeak`), unless its reconcile has to wait for a floating address. The exact
  condition is `ServerPorts.DeletePassLeavesNoPortExactly`.
- The plain conversion of a cluster spec loses a bastion flavor name that stands beside a flavor ID
  (`FlavorNameIsLost`), an empty flavor, and integers beyond int32 (`VolumeSizeIsLost`):
  `SpokeRoundTripExactly`. With the stash nothing is lost
  (`OverlayRestores`), unless one decoded object is converted twice (`SecondConversionLosesMetadata`).
- A cluster template copied with its stash and then edited in v1beta2 shows the old values in v1beta1:
  `ClusterTemplateConversion.StaleStashHidesEdit`, `EditShowsExactly`.
- A template edit that is taken back after a failed rollout leaves ports with wrong address pairs and
  an annotation that hides it: `AddressPairs.RevertAfterFailureIsSkipped`, `RevertTruthfulExactly`.
- A server that is gone is made anew from the machine's own spec. If the template's pairs had been
  applied, its new ports lack them, and the annotation has the machine skipped:
  `AddressPairs.RecreatedServerIsSkipped`, `RecreationTruthfulExactly`.
- With a watch filter set, the machine controller drops the events of the servers it creates, since
  they do not carry the label: an active server that fails goes unnoticed until the machine is queued
  for another reason, such as the periodic resync: `MachineEvents.UnlabelledServerIsNotSeen`,
  `NoWakeUpIsLostExactly`.
- A machine that lists security groups and has a port without port security is admitted by its own
  webhook, but the server made of it is refused by the webhook for OpenStackServer, so it never gets
  one: `ServerSpecs.AdmittedMachineIsStuck`, exact condition in `ServerRefusedExactly`.

## Model

| member | source | states |
|---|---|---|
| `PoolAllocation.Union` | controllers/openstackfloatingippool_controller.go:251-264 | The result lists exactly the members of both lists, each once, whatever order the map is ranged over. |
| `PoolAllocation.Diff` | controllers/openstackfloatingippool_controller.go:266-279 | The result lists exactly the members of the first list that are not in the second, each once, in any map order. |
| `PoolAllocation.RecoverFacts` | controllers/openstackfloatingippool_controller.go:335-348 | Recovery by tag keeps AvailableIPs duplicate-free and apart from ClaimedIPs, and offers exactly the old free addresses and the tagged ones nobody claims. |
| `PoolAllocation.SeparationExactly` | controllers/openstackfloatingippool_controller.go:323-414 | Free and claimed addresses stay apart after getIP unless an address is created, because the head of the free list is not known to OpenStack and the limit leaves room, and the created address is among those the pool would have offered next; in that case they never do. The condition speaks of inputs and answers only. |
| `PoolAllocation.HandsOutUnclaimed` | controllers/openstackfloatingippool_controller.go:323-414 | The address handed out is claimed afterwards, and was claimed before if and only if the answers lead to a creation and OpenStack creates it under an address already claimed. |
| `PoolAllocation.StaleEntryIsHandedOutTwice` | controllers/openstackfloatingippool_controller.go:350-413 | Concrete run of two allocations that hand out one address twice when a stale free entry is recreated by OpenStack. |
| `PoolAllocation.CreatesOnlyWhenAllTaggedClaimed` | controllers/openstackfloatingippool_controller.go:335-390 | getIP asks for a new address after no failed lookup only with AvailableIPs empty and every tagged address claimed. |
| `PoolAllocation.AllocationOutcome` | controllers/openstackfloatingippool_controller.go:323-414 | For every pool and all answers: which address is handed out, when the limit is reported and when a failure, what leaves AvailableIPs and what enters FailedIPs. |
| `PoolAllocation.LimitExceededExactly` | controllers/openstackfloatingippool_controller.go:335-390 | With at most m tagged addresses, one getIP exceeds MaxIPs = m if and only if the limit is used up, ClaimedIPs plus one is still below m, and the head of the free list does not exist or is empty. |
| `PoolAllocation.LimitIsExceeded` | controllers/openstackfloatingippool_controller.go:335-413 | Concrete allocation that takes a pool with two tagged addresses and MaxIPs 2 to three. |
| `PoolController.Controller.ReconcileIPAddresses` | controllers/openstackfloatingippool_controller.go:281-321 | Success leaves ClaimedIPs covering every live IPAddress, AvailableIPs duplicate-free and apart from ClaimedIPs and FailedIPs; with no IPAddress left it is exactly the old list plus the preallocated ones less the failed ones. |
| `PoolController.Controller.Release` | controllers/openstackfloatingippool_controller.go:303-315 | On success, a retained or preallocated address goes back to AvailableIPs and nothing is deleted, any other address is deleted and nothing else, and the IPAddress is gone or without the finalizer. No live IPAddress has the address. |
| `PoolController.Controller.RebuildAvailable` | controllers/openstackfloatingippool_controller.go:317-319 | AvailableIPs becomes exactly the known or preallocated addresses that are neither claimed nor failed, each once. |
| `PoolController.Controller.AllocateIP` | controllers/openstackfloatingippool_controller.go:323-414 | getIP computes PoolAllocation.GetIP of the answers it got, which are those of OpenStack but for what users do meanwhile: the tagged addresses listed, a head that does not exist, the address created. It creates nothing unless AsksToCreate, and then at most one address; the one handed out exists and was in nobody's ClaimedIPs. The limit and the separation of the lists are kept with users acting in between. |
| `PoolController.Controller.CreateIP` | controllers/openstackfloatingippool_controller.go:367-413 | The MaxIPs guard, creation and tagging compute PoolAllocation.Create, create nothing at the limit and at most one address below it, tagged if that does not fail, and never take the number of tagged addresses above it. With reliable lookups it is reached only with nothing available and every tagged address claimed. |
| `PoolController.Controller.EnsureIPAddress` | controllers/openstackfloatingippool_controller.go:145-199 | Going on means the claim's IPAddress exists; a new one holds an address that was in nobody's ClaimedIPs. |
| `PoolController.Controller.ReconcileClaims` | controllers/openstackfloatingippool_controller.go:131-208 | Over any number of allocations no claimed and no failed address is forgotten, and a free address leaves AvailableIPs only for ClaimedIPs. Undisturbed, success means that every claim waiting for an address refers to an IPAddress that exists and the others are as they were, or that the limit is reached. |
| `PoolController.Controller.ReconcileDelete` | controllers/openstackfloatingippool_controller.go:217-249 | Whatever fails, with users acting before every call: the addresses that have left AvailableIPs were each deleted in this pass, those of them that exist in OpenStack were created again by users meanwhile, and nothing was deleted that was not free or was preallocated. On success they are all the free ones that are not preallocated; the finalizer goes only then, with no IPAddress left. |
| `PoolController.Controller.DeleteAndRetry` | controllers/openstackfloatingippool_controller.go:217-249 | A pass that stops anywhere and its retry give up disjoint sets of addresses, together exactly what the first set out to; all of them, and nothing else, were deleted in OpenStack. |
| `PoolController.Controller.Reconcile` | controllers/openstackfloatingippool_controller.go:75-215 | With the status patched or not, every state along the way is recorded and was safe; what is stored is the working copy or what it was. Undisturbed and without error, a live pool with its finalizer ends with its network resolved and every waiting claim bound to an IPAddress that exists, or with the limit reached; one without gets it. If no call fails there is no error. The finalizer is dropped only for a pool being deleted, with no IPAddress left; then every address stored as available that still exists in OpenStack is preallocated, claimed, known as failed, or was created by a user meanwhile. |
| `PoolController.Controller.Converge` | controllers/openstackfloatingippool_controller.go:75-215 | Two reconciles in which no call fails and users do nothing, from any state of a live pool, bind every claim that waits for an address, unless the limit is reached. |
| `PoolController.Controller.Run` | controllers/openstackfloatingippool_controller.go:75-215 | The records only grow and the history ends with the present state. In every state of every run: no two IPAddress objects that are live or still have the finalizer hold one address, the tagged addresses stay within MaxIPs (reliable lookups), no address was ever deleted that was preallocated or that a live IPAddress had, and (reliable lookups) none was ever created unless AvailableIPs was empty and every tagged address in ClaimedIPs. |
| `ServerPorts.AdoptedFacts` | pkg/cloud/services/networking/port.go:685-728 | Adoption extends the recorded list in order by ports that alone have their names, and stops at the first name that does not lead to exactly one port. |
| `ServerPorts.DeletePassLeavesNoPortExactly` | controllers/openstackserver_controller.go:244-307 | A deletion pass in which every call succeeds removes all ports if and only if names are unique, each port of a recorded index is the recorded one, and no name above them is missing below an existing one. |
| `ServerPorts.RecordedDeletionStaysAdoptable` | controllers/openstackserver_controller.go:244-307 | After a pass whose adoption was recorded, any partial deletion is finished completely by the next pass. |
| `ServerPorts.EnsureStepKeepsReachExactly` | pkg/cloud/services/networking/port.go:430-455 | A step of EnsurePorts keeps every port within reach of a later deletion if and only if the recorded port it looks up still exists. |
| `ServerPorts.EnsurePassRecordsAllExactly` | pkg/cloud/services/networking/port.go:430-455 | A whole pass of EnsurePorts leaves every port recorded, whether or not names are missing in between, if and only if every recorded port exists and no other port has the name of one. |
| `ServerPorts.LostPortIsReplacedAndLeftBehind` | pkg/cloud/services/networking/port.go:430-455 | Concrete case: a recorded port was deleted by someone else; each reconcile creates one more unrecorded port, and the deletion pass leaves them all. |
| `ServerController.Controller.SafeRunEvolves` | controllers/openstackserver_controller.go:412-427 | Over any safe run, Ready implies ACTIVE, ACTIVE implies a recorded instance, and a recorded instance ID never changes. |
| `ServerController.UnrecordedDeletionLeaksPort` | controllers/openstackserver_controller.go:156-170 | Concrete stored server, with finalizer, spec and empty resources, whose deletion leaks a port after one pass that deleted a port and lost its status. |
| `ServerController.MissingResourcesDoNotLeak` | controllers/openstackserver_controller.go:156-170 | With no resources stored, adoption and EnsurePorts of the reconcileNormal that comes first leave every port recorded, whatever ports exist; if it has to wait for a floating address instead, the deletion that follows leaves none exactly if all are within reach. |
| `ServerController.Controller.CreatePort` | pkg/cloud/services/networking/port.go:191-314 | Creates at most the port asked for; may only be called with finalizer and resolved spec already stored. |
| `ServerController.Controller.CreateInstance` | pkg/cloud/services/compute/instance.go:53-148 | May only be called with finalizer and resolved spec stored, every port recorded and no live instance; on success exactly one instance exists, under the ID returned. |
| `ServerController.Controller.ResolveServerSpec` | pkg/cloud/services/compute/referenced_resources.go:46-191 | Done without a change means the spec was complete before; a complete spec is never altered. If nothing fails or is missing, an incomplete one becomes complete. |
| `ServerController.Controller.AdoptServerResources` | controllers/openstackserver_controller.go:467-476 | Adoption records exactly what ServerPorts.Adopted yields on the ports that exist, without error only if AdoptionSucceeds, and keeps what was recorded. |
| `ServerController.Controller.EnsurePort` | pkg/cloud/services/networking/port.go:430-455 | Computes ServerPorts.EnsureStep, including the branch that replaces a recorded port that is gone without recording the new one. |
| `ServerController.Controller.EnsurePorts` | pkg/cloud/services/networking/port.go:430-455 | Ports are created in order and recorded one by one under the write-ahead rule, with others deleting ports in between; success means all desired ports have an entry. Undisturbed, it computes ServerPorts.EnsureAll, and succeeds if no two unrecorded ports share a name. |
| `ServerController.Controller.GetOrCreateServer` | controllers/openstackserver_controller.go:503-563 | A recorded instance is never replaced. Success without one leaves exactly one instance, the one returned: that of the name if there was one, otherwise a newly created one. A failed creation sets the state to ERROR. |
| `ServerController.Controller.Prepare` | controllers/openstackserver_controller.go:319-358 | The reconcile goes on to create anything only if finalizer and resolved spec are already stored. |
| `ServerController.Controller.ReconcileInstance` | controllers/openstackserver_controller.go:384-464 | Reached only with all ports recorded. Instance ID and state enter the status together, ready exactly when the state is ACTIVE; success leaves a server without an instance with exactly one, recorded. Undisturbed, it succeeds. |
| `ServerController.Controller.ReconcileNormal` | controllers/openstackserver_controller.go:309-464 | Keeps the invariant on every path, also when it is entered from the delete path. Undisturbed: first finalizer and resolved spec, then every port an entry (all ports recorded if and only if the records were tidy) and one instance, recorded with its state. |
| `ServerController.Controller.DeleteServerInstance` | controllers/openstackserver_controller.go:263-284 | Success means no instance of the name is left, recorded or not. |
| `ServerController.Controller.DeletePorts` | controllers/openstackserver_controller.go:291-298 | With users acting before every call, success means every recorded or adopted port is gone, and in an orderly world every port. |
| `ServerController.Controller.ReconcileDelete` | controllers/openstackserver_controller.go:244-307 | Any error keeps the finalizer; without error it is dropped, no instance is left, every port that was recorded or adopted is gone, and in an orderly world no port is left. |
| `ServerController.Controller.PatchMetadata` | controllers/openstackserver_controller.go:172-185 | Stores the finalizer of the working copy, unless it is new on a server being deleted; keeps the write-ahead invariant; when it removes the finalizer it notes the ports recorded or adopted by then. |
| `ServerController.Controller.Patch` | controllers/openstackserver_controller.go:172-185 | Either half of the patch may be lost. |
| `ServerController.Controller.Reconcile` | controllers/openstackserver_controller.go:88-170 | One reconcile, from any stored state, with a failure after any effect and users removing ports and instances in between; every state is recorded. Undisturbed, what reconcileNormal gets done is stored, and a server being deleted has no instance, none of its recorded ports and no finalizer left. |
| `ServerController.Controller.Converge` | controllers/openstackserver_controller.go:88-464 | Two undisturbed reconciles, from any live state with distinct port names and a recorded instance live, end with finalizer, spec, an entry for every port and exactly one instance, recorded with its state; ready exactly if it is ACTIVE. |
| `ServerController.Controller.Run` | controllers/openstackserver_controller.go:88-170 | The record of states only grows and ends with the present one. In every state of every run: ports and instances exist only under a stored finalizer and resolved spec, at most one instance lives, a recorded instance ID is never replaced or joined by another instance, and a released server has no instance and none of the ports recorded or adopted by then, in an orderly world no port at all. |
| `MachineEvents.EveryChangePassesExactly` | controllers/openstackserver_controller.go:806-876 | Every change away from a state passes the update predicate if and only if that state is reportable. |
| `MachineEvents.PassesExactly` | controllers/openstackserver_controller.go:806-876 | The update predicate passes a change of ready and a change of name between states one of which is reportable, and nothing else. |
| `MachineEvents.StepKeepsCovered` | controllers/openstackmachine_controller.go:465-602 | Every step of status writer, watch, timer and worker keeps the wake-up invariant, if the server's events pass the event filter. |
| `MachineEvents.NoWakeUpIsLostExactly` | controllers/openstackmachine_controller.go:187-226 | If and only if the server's events pass the filter set on all watches, in every state of every run: if the machine last acted on another state than the server is in, then an event or timer is pending, or a reconcile under way will set one or has the newest state, or the change is still in the watch, or the machine is blocked (paused, no bootstrap data) and will be queued when that ends. |
| `MachineEvents.UnlabelledServerIsNotSeen` | controllers/openstackmachine_controller.go:187-226 | Concrete run: an active server whose events are filtered out fails, and the machine never looks. |
| `MachineController.Controller.ReconcileCluster` | controllers/openstackcluster_controller.go:349-391 | The cluster controller sets the network before provisioned and resets neither; without error it ends with both. |
| `MachineController.Controller.CreateServer` | controllers/openstackmachine_controller.go:754-807 | A server appears only under a stored finalizer in a provisioned cluster. |
| `MachineController.Controller.ReconcileDelete` | controllers/openstackmachine_controller.go:228-284 | The working copy loses the finalizer only when no server of the machine's name exists; the early exit for an unprovisioned cluster is taken only without one. Undisturbed, it marks a server for deletion, or without one drops the finalizer. |
| `MachineController.Controller.ReconcileMachineState` | controllers/openstackmachine_controller.go:465-602 | ACTIVE sets provisioned and the provider ID of that instance and goes on; DELETED stops; every other state, ERROR and none included, asks for a timer; nothing but ACTIVE changes the working copy. |
| `MachineController.Controller.ReconcileNormal` | controllers/openstackmachine_controller.go:356-460 | Creates a server only with the finalizer stored. The working copy ends with the stored provider ID or with the one of the server's recorded instance, agreeing with all earlier ones of that server, and stays provisioned. Undisturbed: first the finalizer, then the server, then, once it is ACTIVE, provisioned and the provider ID of its instance, and nothing in any other state. |
| `MachineController.Controller.Reconcile` | controllers/openstackmachine_controller.go:85-178 | One reconcile, the other two controllers and users acting at any point of it. Undisturbed, the next step of reconcileNormal or reconcileDelete is done and stored. |
| `MachineController.Controller.Converge` | controllers/openstackmachine_controller.go:356-529 | Three undisturbed rounds with the server's controller, from any state, leave a machine of a provisioned cluster provisioned, with an ACTIVE server and the provider ID of its instance. |
| `MachineController.Controller.TearDown` | controllers/openstackmachine_controller.go:228-284 | Two undisturbed rounds, from any state, leave a machine being deleted without server and without finalizer. |
| `MachineController.Controller.Run` | controllers/openstackmachine_controller.go:85-178 | The record of states only grows and ends with the present one. In every state of every interleaved run: a server exists only under a machine with its finalizer in a provisioned cluster with network, Ready implies ACTIVE implies an instance. Of any two states, the later one is provisioned and has a provider ID if the earlier one was and had; while one server exists, its recorded instance never changes, and neither does a stored provider ID that names it; a stored provider ID that changes while a server exists becomes that of its instance. |
| `MachineController.Controller.PatchSpec` | controllers/openstackmachine_controller.go:139-192 | Persists exactly finalizer and provider ID of the working copy, or nothing if that would add a finalizer to a machine being deleted; no earlier provider ID of the same server is replaced. |
| `MachineController.Controller.PatchStatus` | controllers/openstackmachine_controller.go:139-192 | Persists exactly provisioned, which is never reset, on its own. |
| `Bastion.Controller.DeleteServer` | controllers/openstackcluster_controller.go:507-519 | Never called on a server that should stay, whatever others did before the call; gone or marked on success. |
| `Bastion.Controller.CreateServer` | controllers/openstackcluster_controller.go:595-623 | Only a wanted, absent bastion is created, with the desired spec and under the cluster's finalizer. |
| `Bastion.Controller.DeleteExternalAddresses` | controllers/openstackcluster_controller.go:309-324 | The loop never deletes the floating IP named in the spec; undisturbed, on success every other external address is gone. |
| `Bastion.Controller.DeleteStatusFloatingIP` | controllers/openstackcluster_controller.go:274-290 | The address in the status is deleted only if the spec does not name it, and then, undisturbed, it is gone on success. |
| `Bastion.Controller.DeleteBastion` | controllers/openstackcluster_controller.go:256-333 | Never deletes the named floating IP; success leaves the server gone or going and the status cleared and, undisturbed, the address of the status and the instance's external addresses gone unless the spec names them. |
| `Bastion.Controller.BastionToServerSpec` | controllers/openstackcluster_controller.go:627-648 | Yields what openStackMachineSpecToOpenStackServerSpec makes of the bastion's machine spec and zone with the bastion's group, and does not change it although it may write an empty machine spec into the cluster. |
| `Bastion.Controller.ReconcileEnabled` | controllers/openstackcluster_controller.go:546-576 | Never raises the rank (wrong spec, deleting, absent, not ready, ready); without error it lowers it from wrong spec and from absent. A server of the desired spec is never deleted. |
| `Bastion.Controller.ReconcileBastionServer` | controllers/openstackcluster_controller.go:524-576 | The same for enabled and disabled bastions; going on means a ready server. |
| `Bastion.Controller.AddFloatingIP` | controllers/openstackcluster_controller.go:467-503 | On success the attached address is, in this order: the one attached already, the one in the status, the one named in the spec, a new one. |
| `Bastion.Controller.FinishBastion` | controllers/openstackcluster_controller.go:424-465 | Success leaves a bastion with an external network with an attached address, which is the one in the status. |
| `Bastion.Controller.ReconcileNormal` | controllers/openstackcluster_controller.go:335-414 | Nothing is created before the finalizer is stored. |
| `Bastion.Controller.ReconcileDelete` | controllers/openstackcluster_controller.go:159-245 | The cluster's finalizer is dropped only when the bastion's server has gone; if no call fails and nobody acts, it is dropped as soon as it has. |
| `Bastion.Controller.Reconcile` | controllers/openstackcluster_controller.go:82-157 | With others acting before every call and the closing patch written or lost: no write to the server raises the rank, no deletion hits the named floating IP, a bastion exists only under the cluster's finalizer. Undisturbed, the rank of the bastion itself never rises and the named floating IP stays. |
| `Bastion.Controller.Run` | controllers/openstackcluster_controller.go:82-157 | The same over every run with arbitrary edits in between; the records of deletions and writes only grow. |
| `Bastion.Controller.Converge` | controllers/openstackcluster_controller.go:416-576 | From any state, three undisturbed rounds without error end with a ready bastion of the desired spec and its address attached, or with none if disabled; if no call fails there is no error. |
| `Bastion.Controller.TearDown` | controllers/openstackcluster_controller.go:159-245 | Two rounds in which no call fails and nobody acts, from any state, leave a cluster being deleted without bastion and finalizer. |
| `ServerSpecs.TranslationMeans` | controllers/openstackmachine_controller.go:619-735 | For every machine and cluster: an error exactly without a port and a default network; otherwise flavor, tags, zone, user data and trunk, and for each port the network, the fixed IPs (the primary subnet alone or every cluster subnet in order, only where the default network goes in) and the groups (its own, or the default one if it has none and port security, then the machine's). |
| `ServerSpecs.WithoutNetworkExactly` | controllers/openstackmachine_controller.go:619-735 | A translated port has no network if and only if neither it nor the cluster names one. |
| `ServerSpecs.ServerRefusedExactly` | controllers/openstackmachine_controller.go:710-731 | The server made of an admitted machine is refused by the webhook for OpenStackServer if and only if the machine lists security groups and has a port without port security. |
| `ServerSpecs.AdmittedMachineIsStuck` | pkg/webhooks/openstackserver_webhook.go:62-66 | Concrete machine that its own webhook admits and whose server is refused. |
| `ServerSpecs.ServerPortsIdempotent` | controllers/openstackmachine_controller.go:677-735 | max(1, n) ports; translating the result again changes nothing. |
| `ServerSpecs.TranslatePorts` | controllers/openstackmachine_controller.go:677-732 | Every port translated, in new objects; the machine's ports are untouched. |
| `ServerSpecs.Translate` | controllers/openstackmachine_controller.go:619-735 | The whole server spec as TranslationMeans spells it out, or the error; the input is untouched. |
| `ClusterSpecConversion.LoadBalancerRoundTrip` | api/v1beta1/conversion.go:440-475 | A load balancer comes back if and only if its numbers fit int32. |
| `ClusterSpecConversion.SecurityGroupsRoundTrip` | api/v1beta1/conversion.go:550-588 | Managed security groups come back, renamed list included, if and only if their port ranges fit int32. |
| `ClusterSpecConversion.PortRoundTrip` | api/v1beta1/zz_generated.conversion.go:2323-2370 | A port comes back if and only if the IP versions of its fixed IP subnets fit int32; port security, which is inverted, always does. |
| `ClusterSpecConversion.MachineSpecRoundTrip` | api/v1beta1/conversion.go:319-390 | A machine spec comes back if and only if it names its flavor in one non-empty way and its integers fit int32: volume sizes, scheduler hints, and IP versions in its ports. |
| `ClusterSpecConversion.SpokeRoundTripExactly` | api/v1beta1/conversion.go:392-548 | v1beta1 to v1beta2 to v1beta1 is the identity if and only if all integers that the converters narrow fit int32, those of the bastion's machine spec included, and the bastion's flavor is unambiguous. The ipVersion of load balancer subnets is not narrowed but cast by pointer, and comes back as long as the object stays in memory. |
| `ClusterSpecConversion.FlavorNameIsLost` | api/v1beta1/conversion.go:319-390 | Concrete spec with a flavor name and a flavor ID that comes back without the name. |
| `ClusterSpecConversion.VolumeSizeIsLost` | api/v1beta1/zz_generated.conversion.go:2553-2572 | Concrete spec whose root volume of 2^32 GiB comes back with size 0. |
| `ClusterSpecConversion.HubRoundTrip` | api/v1beta2/openstackcluster_types.go:378-411 | v1beta2 to v1beta1 to v1beta2 keeps every getter and the defaulted meaning of every inverted boolean, and is the identity if and only if the spec is canonical. |
| `ClusterSpecMeaning.ToHubAgrees` | api/v1beta1/conversion.go:392-475 | v1beta1 to v1beta2 alone, for every spec: each disable flag and its enable flag are opposite in their versions' own defaults and set together, integers keep their low 32 bits, every other field and list element arrives where it belongs, and a group is there exactly if one of its fields is set. |
| `ClusterSpecMeaning.ToSpokeAgrees` | api/v1beta1/conversion.go:477-548 | v1beta2 to v1beta1 alone, for every spec: the same agreement, with all integers in range and so unchanged. |
| `ClusterSpecMeaning.PortToHubAgrees` | api/v1beta1/zz_generated.conversion.go:2323-2370 | A port's security flag is inverted and its fixed IPs are kept in order. |
| `ClusterSpecMeaning.AgreementDetermines` | api/v1beta1/conversion.go:392-548 | Two v1beta2 specs that agree with one v1beta1 spec mean the same, so agreement leaves a converter no choice. |
| `ClusterSpecConverters.ConvertSpecToHub` | api/v1beta1/conversion.go:392-475 | The converter, step by step, meets ToHub and yields a spec that agrees with its input field by field. |
| `ClusterSpecConverters.ConvertSpecToSpoke` | api/v1beta1/conversion.go:477-548 | The converter, step by step, meets ToSpoke and yields a spec that agrees with its input field by field. |
| `ClusterTemplateConversion.OverlayRestores` | api/v1beta1/conversion.go:112-128 | Reading a stashed v1beta1 spec over its own conversion restores it, for every spec. |
| `ClusterTemplateConversion.EditShowsExactly` | api/v1beta1/conversion.go:112-128 | If the hub's spec is no longer the one of the stash, a flag or scalar of the converted spec agrees with it if and only if the stash leaves it out or agrees as well. |
| `ClusterTemplateConversion.EditedListsExactly` | api/v1beta1/conversion.go:112-128 | Subnets have the hub's number if and only if the stash has none or as many; an ID that the stash has hides the hub's, and external router IPs are the hub's where the stash has none. |
| `ClusterTemplateConversion.StaleStashHidesEdit` | api/v1beta1/conversion.go:112-128 | Concrete hub object whose MTU reads differently in v1beta1. |
| `ClusterTemplateConversion.ConvertTo` | api/v1beta1/conversion.go:88-109 | Metadata comes from the stash; the shared map ends with the spoke's spec as its only stash, other annotations as before; undecodable data is an error and changes no annotation. |
| `ClusterTemplateConversion.ConvertFrom` | api/v1beta1/conversion.go:112-128 | The stashed spec is read over the conversion; the shared map ends with the hub's metadata and spec as its only stash, other annotations as before. |
| `ClusterTemplateConversion.RoundTripSettled` | api/v1beta1/conversion.go:88-128 | A trip of a hub object that came from a spoke spec leads back to that spec and to the same hub object. |
| `ClusterTemplateConversion.Alternate` | api/v1beta1/conversion.go:88-128 | Over any number of trips every spoke has the same spec, every hub the original metadata, and the stash neither nests nor grows. |
| `ClusterTemplateConversion.FromHub` | api/v1beta1/conversion.go:88-128 | A hub object that never was a spoke keeps metadata and meaning over any number of trips, and its spec itself if canonical. |
| `ClusterTemplateConversion.FromSpoke` | api/v1beta1/conversion.go:88-128 | A spoke object comes back over any number of trips with every field, whatever it holds, and the hub object never changes. |
| `ClusterTemplateConversion.SecondConversionLosesMetadata` | api/v1beta1/conversion.go:88-109 | Because the map is shared, converting one spoke object twice loses the metadata the second time. |
| `FailureDomains.ToSlice` | api/v1beta1/conversion.go:222-234 | The result is the sorted list form of the map, in whatever order the map is ranged over: one domain for each entry, with its controlPlane and attributes. |
| `FailureDomains.SliceUnique` | api/v1beta1/conversion.go:222-234 | A map has one list form only, so the order of ranging does not matter. |
| `FailureDomains.ToMapLoop` | api/v1beta1/conversion.go:252-260 | The loop computes ToMap; the last of equal names counts. |
| `FailureDomains.LastCounts` | api/v1beta1/conversion.go:252-260 | Of several domains with one name the last counts, with controlPlane read as false where it is missing. |
| `FailureDomains.MapRoundTrip` | api/v1beta1/conversion.go:222-260 | Map to list to map is the identity. |
| `FailureDomains.SliceRoundTripExactly` | api/v1beta1/conversion.go:222-260 | List to map to list is the identity if and only if names ascend strictly and every controlPlane is set. |
| `FailureDomains.SortByName` | api/v1beta1/conversion.go:231-233 | Sorted by name, a permutation. |
| `FailureDomains.ReconcileFailureDomains` | controllers/openstackcluster_controller.go:362-379 | Written only while empty: one domain for each zone, sorted, for control planes if it is among the control plane zones or, where none are named, unless that is switched off; a fixed point of the conversion if and only if zone names are distinct; otherwise untouched. |
| `FailureDomains.WrittenRoundTripExactly` | controllers/openstackcluster_controller.go:362-379 | What is written survives list to map to list if and only if zone names are distinct. |
| `FailureDomains.Run` | controllers/openstackcluster_controller.go:362-379 | Over any number of reconciles the first non-empty list stays. |
| `AddressPairs.IsOwnedByMachineSet` | controllers/openstackmachinetemplate_controller.go:385-392 | True exactly if some owner reference is of kind MachineSet and has that name. |
| `AddressPairs.AppliedFacts` | controllers/openstackmachinetemplate_controller.go:351-366 | After k updates the first k ports have the wanted pairs and every other port is as before. |
| `AddressPairs.Controller.UpdateAllowedAddressPairs` | pkg/cloud/services/networking/port.go:746-759 | Success sets the pairs of that port, an absent MAC as empty; a failing call does so or does nothing. |
| `AddressPairs.Controller.UpdatePorts` | controllers/openstackmachinetemplate_controller.go:351-366 | Stops at the first failure with exactly the ports before it updated, and perhaps that one; ports beyond the template are left alone; annotations stay truthful while others change machines and servers in between. |
| `AddressPairs.Controller.ApplyTo` | controllers/openstackmachinetemplate_controller.go:346-377 | Keeps all annotations truthful from any failure on; success annotates the machine. |
| `AddressPairs.Controller.ReconcileMachine` | controllers/openstackmachinetemplate_controller.go:308-377 | Undisturbed, a machine that is settled is not touched, and success leaves it settled. |
| `AddressPairs.Controller.ReconcileAllowedAddressPairs` | controllers/openstackmachinetemplate_controller.go:259-382 | Annotations stay truthful whatever fails and whatever others do before each call. Undisturbed, without error every machine of the template with ports is annotated and all its matching ports allow exactly the template's pairs (unless its server was made anew), and if all were annotated before, nothing is updated. If no call fails there is no error. |
| `AddressPairs.Controller.RunTwice` | controllers/openstackmachinetemplate_controller.go:259-382 | Undisturbed, after a run without error the next one makes no port update. |
| `AddressPairs.Controller.Run` | controllers/openstackmachinetemplate_controller.go:259-382 | In every state of every run, with others acting before every call, a machine annotated with the template's pairs has them on all its matching ports, while its server is there with the ports a run last read. |
| `AddressPairs.RecreationTruthfulExactly` | controllers/openstackmachine_controller.go:754-807 | The annotation of a machine whose server was made anew is truthful if and only if it does not name the template's pairs or the new ports have them. |
| `AddressPairs.RecreatedServerIsSkipped` | controllers/openstackmachine_controller.go:754-807 | Concrete case: a server made anew from the machine's own spec has the old pairs under an annotation that names the new ones. |
| `AddressPairs.RevertTruthfulExactly` | controllers/openstackmachinetemplate_controller.go:327-366 | After a failed rollout of k ports the old annotation is truthful if and only if those ports got the pairs they had. |
| `AddressPairs.RevertAfterFailureIsSkipped` | controllers/openstackmachinetemplate_controller.go:327-366 | Concrete case: a rollout fails half way, the template goes back, and the machine is skipped with wrong pairs. |
| `Tags.SplitTags` | api/v1beta1/conversion.go:619-632 | The loop computes the non-empty pieces in order. |
| `Tags.JoinTags` | api/v1beta1/conversion.go:635-644 | The loop computes Join, which puts the tags one after the other with commas between (JoinConcat). |
| `Tags.JoinConcat` | api/v1beta1/conversion.go:635-644 | The text of two lists is the text of the first, a comma, and the text of the second; a single tag is its own text. |
| `Tags.SplitJoins` | api/v1beta1/conversion.go:619-632 | The pieces are comma-free and join to the text. |
| `Tags.ListRoundTripExactly` | api/v1beta1/conversion.go:619-644 | A list comes back from text if and only if every tag is non-empty and comma-free. |
| `Tags.TextRoundTripExactly` | api/v1beta1/conversion.go:619-644 | Text to list to text drops exactly the empty pieces, is idempotent, and changes a text if and only if it has one (or is not itself empty). |

## Left out

Assumptions about the surroundings:

- Reads of the API server are up to date, except in `MachineEvents`, where the machine reads a cache that lags; one worker handles an object at a time; there is one pool per tag.
- PoolController.Controller.CreateFloatingIPForPool: a new floating IP is outside AvailableIPs and ClaimedIPs; without that, uniqueness fails as shown.
- PoolController.Controller.Run: the limit is stated with `reliable`, that is, every address looked up exists and none is the empty string; without it `LimitExceededExactly` shows how it fails. Users do not create, retarget or revive IPAddress objects, nor put the controller's finalizer back on one, nor put the pool's tag on floating IPs; they do not change MaxIPs. Other edits of the pool (preallocated addresses, policy, deletion) are seen at the start of a reconcile, which works on the pool as it was read.
- ServerController.Controller.Run: that no port at all is left behind is stated for an `orderly` world, where only the controller deletes ports and a pass that deleted a port and then failed gets its status written; without either the leaks above exist. Everything else is stated without that. Lookups by name are complete, and nobody else creates ports or instances under the names of the server.
- AddressPairs.Controller.Run: Neutron gives no port ID out again; nobody else changes the pairs of ports during a run, or those of an annotated machine at any time, or claims the current pairs for a machine; template edits go to pairs no machine claims, and a run works with the template it has read; the JSON encoding is injective.
- AddressPairs.Controller.RunTwice: stated for a world where nobody else acts during a run (`quiet`), since others may add machines.
- Bastion.Controller.Converge: cluster inputs are fixed and have a desired server spec, and nobody interferes (`quiet`); only the cluster controller sets the spec of the bastion's server. Edits of the cluster are seen at the start of a reconcile.
- MachineEvents.NoWakeUpIsLostExactly: nobody changes the labels or the pause annotation of the server, and the resync that repeats events is not a step; whatever blocks a machine ends with an event that queues it, as the watches on Cluster, Machine and OpenStackMachine are set up to do.
- Converge and TearDown: nobody else acts during a reconcile, no call fails and nothing waited for is missing (`calm`, or `quiet` with `faultless`); for the pool also that a lookup may find no address (not `reliable`), which is the more general case. What the controllers do when disturbed is covered by the other contracts.
- MachineController.Controller.Run: the machine starts without a provider ID, and users do not edit it.
- Users do not strip finalizers.

Parts of the code:

- ClusterTemplateConversion.ConvertFrom: what a hub stash found on a hub object leaves in the spec is not determined; the code only meets it if someone copied an annotation by hand. Pointers and slices that source and destination share, other than the annotation map, are values.
- ClusterTemplateConversion.Alternate: starts from a hub object whose stash, if it has one, is a spoke's.
- ServerSpecs.Translate: the code accepts a nil cluster in its first lines and dereferences it later; the cluster is always there in this model. Nested slices of a port are values, so sharing of their backing arrays is not captured.
- FailureDomains.SortByName: works on values, by insertion, where the code calls the library sort in place.
- Nil and empty lists are one; `other` fields stand for everything that is copied or cast as it is. Subnets of a load balancer are among them: their ipVersion is cast by pointer from int to int32, which is undone in memory, but an object stored as v1beta2 keeps only its low 32 bits.
- Status converters other than failure domains: raw casts and condition copies.
- Conversions of OpenStackCluster, OpenStackMachine and OpenStackMachineTemplate objects with their one-way stash: the template is the harder case.
- Legacy Calico rules, list conversions, defaulting, webhooks and validation.
- Network, router, security group and load balancer services, `reconcilePreExistingNetworkComponents`, `getClusterSubnets` and the control plane endpoint: their code is mostly lookups; they appear as calls that may fail.
- Floating addresses of servers from pools, volumes, trunks, user data, and API server load balancer members: calls that may fail.
- Capacity and node info of machine templates, which are field copies.
- Conditions, events, logs, requeue intervals and backoff: one retried call is one operation that succeeds or fails.
- Scopes, credentials, client caches, metrics, flags and wiring.
