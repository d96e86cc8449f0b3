# BIG-IP Kubernetes Gateway controller: a verified model

The controller keeps an in-memory cache of Gateway API objects. On every event it works out which
gateway classes are concerned, renders those again to BIG-IP resources, and queues one AS3
declaration. A deployer merges what is queued, leaves out tenants that are deployed already, and
sends the rest to every BIG-IP. This project models that pipeline in Dafny and proves it end to end:

* the reference grant index (`GrantIndex`): 8-bit counters that wrap around, updated in place, are
  exact over every run in which no pair is listed more than 127 times, and the webhooks' scan of
  the grants (`Webhooks`) gives the same answers;
* the cache and its queries (`SigCache`, with their meaning in `Snapshots`), read forwards and
  backwards (`Reachability`), and said again in terms of the stored objects: who attaches to a
  gateway (`Attachment`), which services a route uses (`ServiceUse`), which certificates a listener
  has (`Certificates`);
* rendering (`IRules`, `Pools`, `Rendering`, `Parser`, `Pooling`, `AS3`, `Declarations`,
  `Closure`): what a render contains, why, what it refers to, and what the arbitrary order of
  Go's map iteration can change; what filters do (`FilterEffects`), which members pools have
  (`PoolMembers`), when rendering fails (`Failures`);
* incremental rendering (`Impact`, `Events`, `LeftBehind`): which classes read what they read before
  an event, and for which the old tenant stays right, in both directions; which classes are deployed
  (`Impacted`), and that only this controller's are (`Ownership`);
* the deployer (`Deployer`): its cache is never wrong, whatever fails, and batching with
  suppression refines one deployment per request; what is sent is exactly what has changed or
  failed (`Suppression`);
* failed reconciles (`Retries`, `RetryRuns`): what trying again deploys, and what it misses;
* the whole run (`Controllers`, `Convergence`): each class's last queued tenant, or else its tenant
  on every BIG-IP, is a render of the current cache, except for the classes that the run has left
  behind in one of the listed ways; and such a tenant serves each listener with exactly the routes
  it lets in (`Serving`).

## How it is modelled

Objects of the Kubernetes API are values, because the source stores copies and only ever replaces
them. What the source updates in place is a class: the index, the cache, the map of resources that
the parsing functions share, the deployer. Each method is proved against a function or relation on
a snapshot of that state, and the lemmas are about those. Loops over a Go map pick the remaining
keys in any order. A render is therefore a relation: `Rendering.Renders` allows every order in which
the maps may be visited, and `RenderExact.RenderDeterministic` says what the order can change.

Names are joined as the source joins them. Where the source relies on what Kubernetes admits
(namespaces are DNS labels, no name has a "/", no group or name is "-" or "*"), the predicates
`LabelName`, `ObjectName` and `CleanPart` say so. Stored gateways, routes, services and secrets
have the group and kind of their own type, which the source completes where a list call leaves them
out (internal/pkg/cache.go:782-786, 816-820). That every stored route names a section in each
parentRef, as the HTTPRoute webhook demands, is part of `Snapshots.Clean`. `utils.Keyname`,
`utils.Unified`, `utils.DeepEqual` and `utils.MergeErrors` come from the library
f5-bigip-rest-go, which is not part of this model: they are read as joining with "/", removing
duplicates, equality, and "nil if all are nil". Label selectors are evaluated as the Kubernetes API
defines them.

## What the proofs found

Each point names the exact condition. `Examples` has small inputs on which most of them happen, and
`Samples` some on which the laws about stored objects and runs apply.

* Some events leave a class with an outdated tenant (`LeftBehind.LeftBehindIff`,
  `Convergence.BehindIff`): a gateway moves to another class, because it is stored before the old
  one is looked up; a namespace comes after its routes, or goes before them; a secret in use is
  removed, or changes while some gateway uses it wrongly; a service appears or disappears that a
  route names and may not refer to. Nothing else does, as long as deployments succeed.
* A reconcile stores its object before it deploys. When it fails and is tried again, it no longer
  finds the old object. So what a failed deletion of a route or grant, or the relabelling of a
  namespace, or an update that no longer names a class should have deployed stays behind
  (`RetryRuns.RetryCatchesUpIff`); a retried deletion of a gateway dereferences nil
  (`Retries.ReturnOf`). A retry that would deploy everything fails again until something else
  changes (`RetryRuns.CoveringRetryIsVain`). The ReferenceGrant reconciler drops the error after an
  upsert and is not tried again at all.
* A deployment of one class overwrites the tenants of the namespaces of its services, and drops the
  pools that other classes use there (`NamespaceTenants.NamespaceCompleteIff`).
* A listener with both a hostname and certificates gives its host rule and its client-ssl profile
  the same AS3 name, and one of them is lost (`RenderExact.NamesDistinctIff`, `AS3.ClassLosslessIff`).
* The virtual of an HTTPS listener without certificates names a profile that does not exist
  (`Closure.ClosedIff`).
* A GatewayClass named "class" is hidden by the header of any later declaration in its batch
  (`Deployer.TenantNamedClassIsHidden`).
* A regular-expression path gives a condition that does not parse, and so does a match without
  conditions (`IRules.ConditionCompiles`, `IRules.RouteCompiles`).
* The webhook scans the grants of all namespaces and admits references that the controller then
  does not allow (`Webhooks.WebhookAgreesIff`).
* The webhook does not check that a section exists (`Webhooks.AdmittedIsAttachedIff`).
* The 128th listing of a grant pair turns the reference off (`GrantIndex.ExistsRightIff`), until it
  is listed less often again (`GrantIndex.ExistsOverRuns`).

## Model

| member | source | states |
|---|---|---|
| Convergence.Converges | internal/pkg/utils.go:182-216 | in every run of reconciles and batches from an empty cache and empty BIG-IPs, a class that is not left behind has a render of the current cache as its last queued tenant, or else on every BIG-IP, an absent tenant counting as an empty one |
| Convergence.DrainedShowsRender | internal/pkg/utils.go:433-529 | once the queue is empty, every BIG-IP shows a render of the current cache for each class that is not left behind |
| Convergence.SmoothRunsConverge | internal/pkg/utils.go:182-216 | when every deployment succeeds and no event leaves a class behind, every class is up to date after every run |
| Convergence.BehindIff | internal/pkg/utils.go:182-216 | the classes counted as left behind are exact: after a reconcile that does not deploy an up-to-date class, the class is still up to date if and only if the event does not leave it behind |
| Convergence.ReconcileKeepsInv | internal/controllers/httproute_controller.go:57-84 | one reconcile of any kind keeps the invariant behind convergence for every class |
| Convergence.DeliverKeepsInv | internal/pkg/utils.go:435-529 | one batch, with any failures, keeps the invariant behind convergence |
| Convergence.PerformReconcile | internal/controllers/reconcile_manager.go:23-35 | one call of a reconciler is one step of such a run |
| Convergence.PerformBatch | internal/pkg/utils.go:435-529 | one call of handleNext is one step of such a run |
| Serving.DrainedServes | internal/pkg/utils.go:433-529 | once the queue is empty, every BIG-IP has, for each class not left behind, the virtual of every listener and address of its gateways; it runs the iRule of each stored route as often as the route names the listener if the listener lets its namespace in, and else not at all; and each iRule that runs is there, compiled from the route |
| Serving.ShowsServes | internal/pkg/parser.go:151-258 | so does every right tenant of a class |
| Serving.ProgramDeals | internal/pkg/iruletmpl_parser.go:188-209 | a rule of the emitted program gives a service's pool the weight of the last backend reference to it, and none if the service is known and the route may not use it |
| Ownership.OnlyOwnClasses | internal/controllers/gatewayclass_controller.go:75-78 | over every run the cache has no class of another controller |
| Ownership.ForeignClassIgnored | internal/controllers/gatewayclass_controller.go:75-78 | a reconcile of a class of another controller changes neither the cache nor the queue |
| Ownership.UnknownClassIgnored | internal/controllers/gatewayclass_controller.go:62-66 | nor does the deletion of a class that is not stored |
| Ownership.OwnClassDeployed | internal/controllers/gatewayclass_controller.go:100-102 | a class of this controller is stored, and its tenant queued |
| Ownership.CacheIndexExact | internal/pkg/cache.go:194-220 | over every run of the whole system in which no pair is listed more than 127 times, the cache's grant index is exact |
| Impacted.RedeployedIff | internal/controllers/httproute_controller.go:57-84 | a reconcile deploys a class exactly if it is of the class, stores a gateway of it or deletes one, or concerns one of its stored gateways: the old or the new route names a listener of it that lets the route in; the old or the new grant is from its namespace, or from that of a route it serves; a route of the relabelled namespace names it as a parent; or it uses the stored secret, which none uses wrongly |
| Impacted.GrantIff | internal/pkg/cache.go:629-715 | the classes of a grant are those of gateways in namespaces it is from for gateways, and of gateways that serve routes of namespaces it is from for routes |
| Impacted.NamespaceIff | internal/pkg/cache.go:644-671 | the classes of a namespace are those of gateways that its routes name as a parent, let in or not |
| Failures.RenderFailsIff | internal/pkg/parser.go:46-78 | rendering a class of this controller fails exactly if a gateway of it has a listener that cannot use its certificates, an address that is no IP address, an address and a listener of TLS, TCP or UDP, or an attached route with a filter that mirrors or redirects with another status than 301 and 302 |
| Failures.DeployFailsIff | internal/pkg/utils.go:182-216 | deploying classes fails exactly if rendering one does, or if the endpoints of a service that they use cannot be formatted |
| Failures.BackendsFailIff | internal/pkg/utils.go:397-430 | deploying the backends of a namespace fails exactly if the endpoints of one that a known class uses cannot be formatted |
| Failures.ReturnedIff | internal/controllers/secret_controller.go:49-93 | a reconciler returns an error exactly if the deployment fails, unless a grant was stored, or if some gateway uses the secret wrongly at the first listener it concerns; it panics exactly on the deletion of an unknown gateway |
| RetryRuns.RetryCatchesUpIff | internal/controllers/httproute_controller.go:57-84 | in a run with batches, reconciles of other objects and failed retries between a failed reconcile and its successful retry, a class that the first changed is left behind until a step deploys it, and the retry catches up with it if and only if the new object still concerns the class |
| RetryRuns.RetryCatchesUpAll | internal/controllers/httproute_controller.go:57-84 | in such a run the retry deploys all classes of the first if and only if RetryCovers holds of the two caches, and then none that the first changed is left behind |
| RetryRuns.CoveringRetryIsVain | internal/controllers/httproute_controller.go:57-84 | in a run with only batches between, a retry that is to deploy all classes of the failed reconcile fails again and changes nothing |
| RetryRuns.ClassDeletionDeploys | internal/controllers/gatewayclass_controller.go:62-69 | deleting a class never fails to deploy |
| Retries.RetryCoversIff | internal/controllers/httproute_controller.go:57-84 | on any later cache that has the event's object, a second reconcile deploys all classes of the first if and only if the classes of the old and the new route or grant then were are now those of the new, a deleted class or gateway was not stored, no namespace was relabelled that routes use, and the users of a secret are still among its users |
| Retries.CoversAtOnceIff | internal/controllers/httproute_controller.go:57-84 | and right after the first, if and only if the same holds with the old object's classes among the new object's |
| LeftBehind.LeftBehindIff | internal/pkg/utils.go:182-216 | a tenant that was right for a class the event does not deploy stays right if and only if the class is not uncovered, or only loses a gateway that writes nothing of its own |
| LeftBehind.GatewayLeftIff | internal/controllers/gateway_controller.go:72-81 | after a gateway has left a class, the class's old tenant is wrong if and only if the gateway writes a resource that no other gateway of the class writes |
| LeftBehind.VirtualMatters | internal/pkg/parser.go:221-251 | a gateway with a listener and an address does |
| LeftBehind.NamespaceTold | internal/controllers/v1_controller.go:77-88 | when a route is attached with its namespace and not without, no tenant is right for the class both with and without it |
| Events.EventCoveredIff | internal/pkg/cache.go:629-671 | of the classes that an event does not deploy, what a render reads changes exactly for those listed as uncovered |
| Events.NextWellFormed | internal/pkg/cache.go:23-220 | every event keeps each object under its own key and the names well-formed |
| Impact.GrantChangeSound | internal/pkg/cache.go:629-642 | replacing or deleting a grant leaves alone every class outside the impacted classes of the old and the new grant, whatever the counters hold |
| Impact.PutRows | internal/pkg/cache.go:200-209 | setting a grant touches only index rows of from-entries of the old and the new grant |
| Impact.RemoveRows | internal/pkg/cache.go:211-220 | unsetting a grant touches only index rows of its from-entries |
| Impact.RouteChangeSound | internal/controllers/httproute_controller.go:57-84 | upserting or deleting a route leaves alone every class that no gateway referenced by the old or the new route has |
| Impact.NamespaceChangeSound | internal/pkg/cache.go:644-671 | a changed namespace leaves alone every class of no gateway that its routes name as a parent |
| Impact.NamespaceChangesIff | internal/controllers/v1_controller.go:65-88 | when a namespace appears or disappears, for which nothing is deployed, what a class reads changes if and only if the class is active and a route of the namespace becomes or was attached to one of its gateways |
| Impact.GatewayChangeSound | internal/controllers/gateway_controller.go:47-87 | storing or deleting a gateway concerns only its class before and its class after |
| Impact.GatewayUpsertChangesIff | internal/controllers/gateway_controller.go:72-81 | of the classes other than the new one, which is deployed, what a class reads changes if and only if it is active and the gateway has left it |
| Impact.ClassChangeSound | internal/controllers/gatewayclass_controller.go:62-102 | storing or deleting a class concerns no other class |
| Impact.SecretChangeSound | internal/pkg/cache.go:291-335 | storing a secret that no gateway uses wrongly leaves alone every class without a gateway using it |
| Impact.SecretChangesIff | internal/controllers/secret_controller.go:49-80 | when a secret is stored or removed, what a class reads changes if and only if the value changes and an active class has a gateway that uses it and can use all its certificates before or after |
| Impact.ServiceChangesIff | internal/pkg/iruletmpl_parser.go:188-209 | when a service is stored or removed, what a class reads changes if and only if an attached route with a program names the service and may not refer to it |
| GrantIndex.ReferenceGrantFromTo.Set | internal/pkg/utils.go:218-230 | `set` in place adds each from and to pair of the grant with 8-bit wrap-around, as AddGrant |
| GrantIndex.ReferenceGrantFromTo.Unset | internal/pkg/utils.go:232-249 | `unset` in place removes them, ends at a missing from-key and deletes entries that reach zero, as DropGrant |
| GrantIndex.ReferenceGrantFromTo.ExistsPair | internal/pkg/utils.go:251-261 | `exists` is true exactly for a stored positive count |
| GrantIndex.AddPairsCounts | internal/pkg/utils.go:218-230 | `set` adds occurrences of from times occurrences of to to every count, modulo 256 |
| GrantIndex.DropPairsCounts | internal/pkg/utils.go:232-249 | `unset` subtracts them exactly and leaves no zero or negative entry, when the counts cover what is dropped |
| GrantIndex.PairsIsProduct | internal/pkg/utils.go:220-228 | a grant lists a pair as often as its from-entries times its to-entries |
| GrantIndex.PutExact | internal/pkg/cache.go:200-209 | replacing a grant keeps the index exact while no pair is listed more than 127 times |
| GrantIndex.RemoveExact | internal/pkg/cache.go:211-220 | removing a grant keeps the index exact |
| GrantIndex.IndexExactOverRuns | internal/pkg/cache.go:200-220 | over every run of set, replace and unset with every pair listed at most 127 times, each entry is the number of times the stored grants list its pair, and none is zero or negative |
| GrantIndex.ExistsRightIff | internal/pkg/types.go:27 | after one more grant, `exists` is right about a pair if and only if its count is zero or is 1 to 127 modulo 256 |
| GrantIndex.WrappedOverRuns | internal/pkg/utils.go:218-249 | over every run in which no pair is listed more than 255 times, each entry is its count modulo 256 as an int8, and only listed pairs have entries |
| GrantIndex.ExistsOverRuns | internal/pkg/utils.go:251-261 | in such a run `exists` is true exactly while a pair is listed 1 to 127 times, so it recovers from an overflow |
| GrantIndex.FromKeyInjective | internal/pkg/utils.go:133-143 | the "-" encoding of from-entries loses nothing |
| GrantIndex.ToKeyInjective | internal/pkg/utils.go:145-155 | the "-" and "*" encoding of to-entries loses nothing, namespace included |
| Webhooks.RgExists | internal/webhooks/webhook_utils.go:424-444 | true exactly if some listed grant has both entries |
| Webhooks.IndexAgreesWithScan | internal/pkg/cache.go:724-758 | on an exact index, the controller's answer equals the webhook's scan of the grants in the target's namespace |
| Webhooks.ControllerImpliesWebhook | internal/webhooks/webhook_utils.go:388-422 | what the controller allows, the webhook's scan of all grants allows |
| Webhooks.WebhookAgreesIff | internal/webhooks/webhook_utils.go:388-444 | the webhook's scan of all grants and the controller agree on a reference if and only if it stays in its namespace, comes from another group, or is granted nowhere or in the target's namespace |
| Webhooks.WebhookAdmitsMore | internal/webhooks/webhook_utils.go:424-444 | for example not on one granted in another namespace only |
| Webhooks.FmtInvalids | internal/webhooks/webhook_utils.go:352-364 | the error is the joined messages, and nil exactly if they join to nothing |
| Webhooks.JoinEmptyIff | internal/webhooks/webhook_utils.go:352-364 | messages join to nothing exactly if there is none or only a single empty one |
| Webhooks.ValidateHTTPRouteParentRefs | internal/webhooks/webhook_utils.go:103-139 | a route is admitted exactly if each parentRef has a section, is of gateway type, names a known gateway, and every listener of that name lets it in |
| Webhooks.AdmittedIsAttachedIff | internal/pkg/cache.go:261-289 | an admitted route is attached to exactly its parents, one per parentRef and in order, if and only if every section names a listener |
| Objects.MatchRoute | internal/pkg/utils.go:64-131 | the listener lets the route in exactly if namespaces and kinds allow it; a kind of another group before the route's own refuses it |
| SigCache.SIGCache.SetReferenceGrant | internal/pkg/cache.go:194-209 | stores the grant under its key and replaces its contribution to the index |
| SigCache.SIGCache.UnsetReferenceGrant | internal/pkg/cache.go:211-220 | removes the grant and its contribution to the index |
| SigCache.SIGCache.CanReferTo | internal/pkg/cache.go:724-758 | same namespace, or granted by the index for the object or for all of its kind |
| SigCache.SIGCache.GatewayRefsOfHR | internal/pkg/cache.go:261-289 | the gateways of the parentRefs that admit the route, in order |
| SigCache.SIGCache.AttachedHTTPRoutes | internal/pkg/cache.go:389-419 | each stored route attached to the gateway, once, in some order |
| SigCache.SIGCache.AttachedGateways | internal/pkg/cache.go:238-250 | each stored gateway of the class, once, in some order |
| SigCache.SIGCache.AttachedServicesOf | internal/pkg/cache.go:430-460 | the known and permitted services of all backends, then of extension references |
| SigCache.SIGCache.RelatedServicesOf | internal/pkg/cache.go:484-498 | exactly the services of routes attached to gateways of the class |
| SigCache.SIGCache.HTTPRoutesRefsOf | internal/pkg/cache.go:522-575 | each stored route with a service of this key, once |
| SigCache.SIGCache.GetRootGateways | internal/pkg/cache.go:605-627 | exactly the gateways that the routes of the service refer to |
| SigCache.SIGCache.GetNeighborGateways | internal/pkg/cache.go:578-603 | exactly the other gateways that share an attached route |
| SigCache.SIGCache.RGImpactedGatewayClasses | internal/pkg/cache.go:629-642 | exactly the classes of gateways the grant names by namespace and of gateways of routes it names |
| SigCache.SIGCache.NSImpactedGatewayClasses | internal/pkg/cache.go:644-671 | exactly the classes of known gateways that a route of the namespace has as a parent |
| SigCache.SIGCache.GatewayRefsOfSecret | internal/pkg/cache.go:291-335 | an error exactly if some gateway uses the secret wrongly, in whatever order gateways are visited; else each gateway using it, once |
| SigCache.SIGCache.AttachedSecretsOf | internal/pkg/cache.go:337-378 | the secrets of each listener name, or an error if one cannot be used |
| Attachment.RefersIff | internal/pkg/cache.go:252-289 | a route refers to a stored gateway exactly if a parentRef of it names a listener of the gateway that takes HTTP routes and whose policy lets the route's namespace in: all, the gateway's own, or those whose labels are selected |
| Attachment.AttachesIff | internal/pkg/cache.go:389-419 | the attached routes of a gateway are the stored ones of this kind |
| Attachment.AllAttaches | internal/pkg/utils.go:83-84 | with the policy All on every listener it does not matter which known namespace a route is in |
| Attachment.SameAttaches | internal/pkg/utils.go:85-86 | with Same it must be the gateway's |
| Attachment.SelectorAttaches | internal/pkg/utils.go:87-93 | with Selector only the labels of the namespace matter |
| Attachment.NoPolicyAttachesNone | internal/pkg/utils.go:64-131 | with another policy or none on every listener nothing is attached |
| Attachment.SelectorLaws | internal/pkg/utils.go:87-93 | the empty selector selects everything, matchLabels is In of one value, NotIn is the complement of In, and DoesNotExist of Exists |
| Attachment.NeighborsIff | internal/pkg/cache.go:577-603 | the neighbors of a gateway are exactly the other stored gateways that share an attached route |
| Attachment.AdmittedIff | internal/webhooks/webhook_utils.go:103-139 | the webhook admits a parentRef exactly if it has a section, is of the Gateway type, and names a known gateway whose every listener of this section lets the route in |
| ServiceUse.MayUseIff | internal/pkg/cache.go:724-758 | on an exact index, a route may use a service exactly if it is in its namespace or a stored grant there lists HTTP routes of the namespace and the service, or all services |
| ServiceUse.AttachedServiceIff | internal/pkg/cache.go:430-460 | a stored service is attached to a route exactly if a backend reference, or an extension reference to a core Service, names it and the route may use it |
| ServiceUse.RelatedIff | internal/pkg/cache.go:484-498 | a stored service is related to a class exactly if an attached route of one of its gateways names it and may use it |
| ServiceUse.RelatedKeysIff | internal/pkg/parser.go:81-94 | classes are deployed with the pools of exactly the stored services used in one of them that is known |
| ServiceUse.BackendKeysIff | internal/pkg/utils.go:397-408 | and the backends of a namespace with those of its services used in any known class |
| Certificates.MayUseSecretIff | internal/pkg/cache.go:724-758 | on an exact index, a gateway may use a secret exactly if it is in its namespace or a stored grant there lists gateways of the namespace and the secret, or all secrets |
| Certificates.CertificatesIff | internal/pkg/cache.go:337-378 | the secrets of a gateway are found exactly if each HTTPS listener has TLS settings and, unless it passes TLS through, may use the stored secrets its references name; each listener then has these in order |
| Certificates.UsersIff | internal/pkg/cache.go:291-335 | looking up who uses a secret fails exactly if some gateway uses it wrongly at the first listener it concerns; else it finds the gateways that use it |
| Snapshots.AttachmentAgrees | internal/pkg/cache.go:389-419 | with unique listener names, a stored gateway is among the references of a route exactly if the route is attached to the gateway |
| Snapshots.AttachedIsReferenced | internal/pkg/cache.go:261-289 | a route attached to a stored gateway has it among its references, also when listener names repeat |
| Snapshots.ListenerMapLookup | internal/pkg/cache.go:394-398 | the map from joined names finds a listener of the section, or there is none |
| Reachability.ReachabilityAgrees | internal/pkg/cache.go:484-498 | a stored service is related to a class exactly if one of its root gateways has the class |
| Reachability.NeighborsSymmetric | internal/pkg/cache.go:577-603 | a gateway is not its own neighbor, and neighborhood is symmetric |
| Reachability.BackendKeysRelated | internal/pkg/utils.go:397-408 | HandleBackends picks exactly the services of the namespace that are related to a known class |
| IRules.ParseMatches | internal/pkg/iruletmpl_parser.go:44-98 | the loops emit the condition text of the matches |
| IRules.OrHosts | internal/pkg/iruletmpl_parser.go:35-42 | the loop emits the condition text of the hostnames |
| IRules.ConditionCompiles | internal/pkg/iruletmpl_parser.go:44-98 | the emitted text, read with `and` binding tighter than `or`, parses if and only if there is a match, every match has a condition and none has a regular-expression path; then it holds of a request exactly if some match has all its conditions |
| IRules.HostsCompile | internal/pkg/iruletmpl_parser.go:35-42 | the hostname condition parses and holds exactly if some hostname matches |
| IRules.RouteCompiles | internal/pkg/irule_templates/rules.tmpl:22-41 | every condition of the emitted program parses if and only if the matches of every rule compile; then for every request it runs the first rule that some match fulfils, on a listed host, and none otherwise |
| Pools.InitPools | internal/pkg/irule_templates/rules.tmpl:5-18 | the loops end with slots 0 to size-1 filled without a gap, each pool in as many as its weight, and size the sum of the weights |
| Pools.PoolWeightIs | internal/pkg/iruletmpl_parser.go:188-209 | a service's pool gets the weight of its last backend reference, and none if the route may not refer to it |
| Pools.PoolWeightsOnlyNamed | internal/pkg/iruletmpl_parser.go:188-209 | only pools of listed backends get a weight |
| Pools.SlotsOfRule | internal/pkg/irule_templates/rules.tmpl:10-16 | each listed service fills exactly its last weight in slots, a forbidden one none |
| Parser.ParsePoolWeight | internal/pkg/iruletmpl_parser.go:188-209 | the weights of the permitted backends and of unknown services, in order |
| Parser.ParseReqFilters | internal/pkg/iruletmpl_parser.go:100-165 | the request actions of all filters in order, or the error of one of them |
| IRules.RequestActionsFail | internal/pkg/iruletmpl_parser.go:100-165 | there is an error if and only if some filter mirrors, or redirects with no status or one other than 301 and 302; the template turns the nil status into an error |
| FilterEffects.ProgramHeaders | internal/pkg/iruletmpl_parser.go:100-186 | the actions that a rule's program has for requests and for responses leave each header as the filters ask: a name that is set has the last value given, a removed one none, any other has the added values appended |
| FilterEffects.RedirectRun | internal/pkg/iruletmpl_parser.go:120-156 | a redirect is one answer with its status; scheme, host, port and path are the redirect's, or else http and those of the request |
| FilterEffects.ExtensionRun | internal/pkg/iruletmpl_parser.go:157-161 | an extension reference sends the request to the pool "namespace.name" in the tenant cis-c-tenant |
| FilterEffects.OthersOnlyHeaders | internal/pkg/iruletmpl_parser.go:100-165 | no other filter answers or picks a pool |
| Parser.BuildProgram | internal/pkg/iruletmpl_parser.go:211-224 | the iRule program of a route, or an error if a filter has one |
| Parser.ParseSecrets | internal/pkg/parser.go:329-354 | adds a certificate per secret, and a profile listing them in order if there is any |
| Certificates.ProfileLists | internal/pkg/parser.go:329-354 | the client-ssl profile of a listener lists the certificates of its secrets in order, and each is a resource of the class |
| Parser.ParseParents | internal/pkg/parser.go:188-208 | fails exactly if an attached route has a parentRef without a section; else lists the matching routes by listener name |
| Parser.ParseVirtuals | internal/pkg/parser.go:221-255 | fails exactly for an address that is no IP address or a listener of an unsupported protocol; else adds a virtual per address and listener |
| Parser.ParseGateway | internal/pkg/parser.go:151-258 | fails exactly if the gateway's inputs say so; else adds what parseGateway may write in some order of its maps |
| Parser.ParseAllForClass | internal/pkg/parser.go:46-78 | fails exactly if some gateway of the class fails, in whatever order they are visited; else returns a render of what the class reads |
| Rendering.ClassExplained | internal/pkg/parser.go:151-258 | in every order, each resource of a class comes from a hostname, an attached route, a secret, a listener with secrets, or an address and listener |
| Rendering.ClassComplete | internal/pkg/parser.go:151-258 | in every order, each of these has its resource |
| RenderExact.VirtualsExact | internal/pkg/parser.go:221-251 | each address and listener has its virtual, whose iRules list each attached route once per parentRef that names the listener and matches, the host rule if there is a hostname, and nothing else |
| RenderExact.NoOtherVirtuals | internal/pkg/parser.go:221-251 | there is no other virtual |
| RenderExact.VirtualKeysDiffer | internal/pkg/parser.go:228-229 | different addresses and listeners of a class have different virtuals, when names have no dots |
| RenderExact.IRulesExact | internal/pkg/parser.go:166-208 | the iRules of a listener are exact in every order of routes |
| RenderExact.RenderDeterministic | internal/pkg/parser.go:46-78 | two renders of one cache have the same resources, except that virtuals may list their iRules in another order |
| RenderExact.InputsPlain | internal/pkg/cache.go:337-378 | the inputs of a class without dots in its names meet what these results need |
| RenderExact.NamesDistinctIff | internal/pkg/parser.go:166-184 | the last segments of a class's resource names are distinct if and only if no listener has both a hostname and certificates |
| AS3.RestToAS3 | internal/pkg/utils.go:350-387 | the declaration has a tenant per configuration, an application per folder and each resource but ARP entries and nodes under its last segment, one of those that share it, in some order of the maps |
| AS3.ConversionLosslessIff | internal/pkg/utils.go:367-384 | an application keeps every resource if and only if no two different ones share a last segment |
| AS3.EntryIff | internal/pkg/utils.go:367-384 | an application has an entry of a name exactly if some resource has the name after any type but net/arp and ltm/node, and the entry is one of these |
| Declarations.ShownNames | internal/pkg/utils.go:350-387 | the tenant of a class has an entry for exactly the names that its gateways write |
| Declarations.ShownValue | internal/pkg/utils.go:367-384 | each resource that a gateway writes is in the tenant under its name with the value written, unless it is the host rule or the profile of a listener that has both |
| Declarations.SomeShown | internal/pkg/parser.go:46-78 | a class whose rendering does not fail has such a tenant |
| Closure.ClosedIff | internal/pkg/parser.go:221-251 | a class's virtuals refer only to iRules and profiles of the class if and only if each of its HTTPS listeners with an address has certificates; iRules are never missing |
| Closure.DealtPoolDeclaredIff | internal/pkg/parser.go:81-94 | a pool that an attached route's iRule deals to is deployed with its class if and only if the service is known |
| AS3.ClassLosslessIff | internal/pkg/parser.go:337-353 | a class's declaration keeps all its resources if and only if no listener has both a hostname and certificates |
| Names.TypeAndNameOf | internal/pkg/utils.go:389-395 | a name without "/" is read back from its resource key, with its type |
| Names.JoinSplit | internal/pkg/utils.go:389-395 | joining what was split gives the text again |
| Names.KeyParts | internal/pkg/parser.go:99-100 | splitting a key gives the namespace and name it was made of |
| Names.ListenerNameInjective | internal/pkg/utils.go:56-58 | listener names differ when namespaces and gateway names have no dots |
| Names.VirtualNameInjective | internal/pkg/parser.go:229 | a virtual's name determines the listener name and the address index |
| Pooling.ParseServices | internal/pkg/parser.go:96-135 | the pools of the keyed services, or the error of one of them |
| Pooling.ServicePoolsFail | internal/pkg/parser.go:113-117 | it fails exactly if some service's members cannot be made |
| Pooling.ServicePoolsTenants | internal/pkg/parser.go:102-106 | there is a tenant for each namespace of a key and no other |
| Pooling.ServicePoolsExact | internal/pkg/parser.go:96-135 | a tenant has a pool for a service exactly if its key is listed, with the service's members |
| Pooling.RelatedKeysOf | internal/pkg/parser.go:81-92 | exactly the keys of the services related to the known classes |
| PoolMembers.DeployedMembers | internal/pkg/parser.go:265-288 | in a deployment of classes, the entry of a related service holds exactly the members of its stored endpoints, and none if it has none |
| PoolMembers.BackendsShow | internal/pkg/utils.go:397-430 | a deployment of backends has just the pools of the namespace's related services with these members, and an empty tenant if there are none |
| PoolMembers.PoolsFailIff | internal/pkg/parser.go:113-117 | making the pools of known services fails exactly if the endpoints of one of them cannot be formatted |
| PoolMembers.NewMembersQueued | internal/controllers/v1_controller.go:96-113 | after a reconcile of endpoints that succeeds, the last queued tenant of the namespace shows the new members of the service, if it is related to a known class |
| PoolMembers.PoolPathResolves | internal/pkg/iruletmpl_parser.go:188-209 | the path by which an iRule names a service's pool leads to the pool's entry in a declaration |
| NamespaceTenants.NamespaceTenantIs | internal/pkg/parser.go:81-94 | a deployment of classes leaves in the tenant of a namespace exactly the pools of the services related to these classes |
| NamespaceTenants.NamespaceCompleteIff | internal/pkg/utils.go:182-216 | these are the pools of all services of the namespace that are related to known classes if and only if each of them is related to a class that is deployed |
| Deployer.AS3Deployer.HandleNext | internal/pkg/utils.go:435-529 | one batch in place: queue, cache, BIG-IPs and responses become those of Handle |
| Deployer.AS3Deployer.Eliminate | internal/pkg/utils.go:462-475 | exactly the tenants equal to their cache entry are left out |
| Deployer.AS3Deployer.Remember | internal/pkg/utils.go:510-527 | the sent tenants enter the cache if every BIG-IP succeeded and leave it otherwise; none was there with the same value |
| Deployer.HandleKeepsCacheSound | internal/pkg/utils.go:462-527 | a batch with any failures keeps every cached tenant equal to what every BIG-IP holds |
| Deployer.CacheSoundOverRuns | internal/pkg/utils.go:433-529 | over every run, with any requests and failures, a cached tenant is what every BIG-IP holds |
| Deployer.MergeRefinesIff | internal/pkg/utils.go:442-457 | sending the merged batch leaves every device as sending each request alone, if and only if no request hides an earlier tenant behind a value that is no tenant |
| Deployer.BatchingRefines | internal/pkg/utils.go:435-529 | for any queue and any split into batches in which no request masks an earlier tenant, when deployments succeed, every BIG-IP ends as if each request had been sent alone, in order, with no cache |
| Deployer.SuppressionUnseen | internal/pkg/utils.go:462-475 | for any queue and any split, when deployments succeed, leaving out what the cache has changes nothing on any BIG-IP |
| Deployer.BatchingRefinesIff | internal/pkg/utils.go:435-529 | for any queue and any split, merging leaves every BIG-IP as sending each request alone, if and only if of each tenant the last entry that some batch shows is the last one queued |
| Deployer.FailureIsRetried | internal/pkg/utils.go:520-526 | over every run, a tenant sent in a batch that any BIG-IP failed is sent again with the next batch that carries it, even unchanged, whatever is queued or sent in between |
| Suppression.SentIff | internal/pkg/utils.go:462-475 | over every run with at least one BIG-IP, a tenant that a batch carries is sent if and only if no batch before carried it, or the last one that did had another value, or sent it and failed on some BIG-IP; it is sent as carried |
| Suppression.CacheIsKnown | internal/pkg/utils.go:510-527 | over every such run the cache has exactly the tenants of which the last batch that carried them had this value and did not send it in vain |
| Suppression.UnchangedIsSuppressed | internal/pkg/utils.go:462-497 | a batch all of whose tenants arrived unchanged adds no response and changes no BIG-IP |
| Suppression.ChangedIsSent | internal/pkg/utils.go:499-508 | any other batch is reported once by each BIG-IP with its answer |
| Deployer.RequestsConserved | internal/pkg/utils.go:437-457 | over every run, each request is taken once, in the order added |
| Deployer.SendsReported | internal/pkg/utils.go:499-508 | over every run, the responses report each sent body once per BIG-IP, in order, and nothing else |
| Deployer.OrdinaryUnmasked | internal/pkg/utils.go:358-361 | in a queue of declarations without a tenant named like a header field nothing is masked, however it is split |
| Deployer.TenantNamedClassIsHidden | internal/pkg/utils.go:358-361 | a tenant named "class" is lost when a later declaration is merged over it |
| Controllers.Controller.DeployForEvent | internal/pkg/utils.go:182-216 | nothing for no classes; an error queues nothing; else one declaration of a render of every class and the pools of their services |
| Controllers.Controller.HandleBackends | internal/pkg/utils.go:397-430 | queues the pools of the namespace's related services, or an empty tenant if there are none |
| Controllers.Controller.ReconcileHTTPRoute | internal/controllers/httproute_controller.go:46-85 | the route is stored or removed, the classes of its old and new gateways are deployed from the new cache, and an error of that is returned |
| Controllers.Controller.ReconcileReferenceGrant | internal/controllers/referencegrant_controller.go:40-80 | the grant is stored or removed, and the impacted classes of both versions, computed before, are deployed; an error of that is returned only after a deletion |
| Controllers.Controller.ReconcileGatewayClass | internal/controllers/gatewayclass_controller.go:48-104 | the class is stored or removed and deployed, and an error returned; a class of another controller is ignored |
| Controllers.Controller.ReconcileGateway | internal/controllers/gateway_controller.go:47-87 | the gateway is stored or removed, and its class after an upsert or before a deletion is deployed; deleting an unknown gateway dereferences nil |
| Controllers.Controller.ReconcileNamespace | internal/controllers/v1_controller.go:56-90 | the namespace is stored or removed, and only if a known one changes its labels are the classes its routes name deployed, and an error of that returned |
| Controllers.Controller.ReconcileSecret | internal/controllers/secret_controller.go:40-94 | the secret is stored or removed, and the classes using a stored one are deployed unless some gateway uses it wrongly, which is an error |
| Controllers.Controller.ReconcileService | internal/controllers/v1_controller.go:119-135 | the service is stored or removed, the backends of its namespace are deployed, and an error of that is returned |
| Controllers.Controller.ReconcileEndpoints | internal/controllers/v1_controller.go:96-113 | the endpoints are stored or removed, the backends of their namespace are deployed, and an error of that is returned |
| Examples.GatewayLeavesBehind | internal/controllers/gateway_controller.go:72-81 | a gateway that moves leaves its class behind |
| Examples.NewNamespaceLeavesBehind | internal/controllers/v1_controller.go:77-88 | so does a namespace that comes after its route |
| Examples.NamespaceLeavesBehind | internal/controllers/v1_controller.go:69-73 | and one that goes |
| Examples.SecretLeavesBehind | internal/controllers/secret_controller.go:49-67 | and a secret in use that is removed |
| Examples.ServiceLeavesBehind | internal/controllers/v1_controller.go:119-135 | and a service that appears although the route may not refer to it |
| Examples.RouteDeletionLost | internal/controllers/httproute_controller.go:57-67 | on a cache with a gateway whose certificate is missing, the deletion of a route fails, and trying it again does not deploy the class |
| Examples.RouteUpsertLost | internal/controllers/httproute_controller.go:71-83 | so does an update by which the route drops its parent |
| Examples.GrantDeletionLost | internal/controllers/referencegrant_controller.go:52-65 | and the deletion of a grant |
| Examples.GatewayDeletionLost | internal/controllers/gateway_controller.go:57-70 | and that of the other gateway; trying it again dereferences nil |
| Examples.RelabellingLost | internal/controllers/v1_controller.go:77-87 | and relabelling a namespace |
| Examples.StoreFails | internal/controllers/httproute_controller.go:71-83 | storing a route fails there too, and changes the class |
| Examples.RetrySucceeds | internal/controllers/httproute_controller.go:71-83 | but once the gateway has moved to another class, trying again succeeds and deploys the class |
| Examples.ClassHasTenant | internal/pkg/parser.go:46-78 | before the events of these examples the class has a right tenant |
| Examples.ListenerClashes | internal/pkg/parser.go:166-184 | a listener with a hostname and a certificate clashes |
| Examples.ListenerBare | internal/pkg/parser.go:232-237 | an HTTPS listener that passes TLS through has a virtual and no profile |
| Examples.RegexDoesNotCompile | internal/pkg/iruletmpl_parser.go:44-98 | the condition of a regular-expression path does not parse |
| Examples.ClassNamedClass | internal/pkg/utils.go:358-361 | the tenant of a class named "class" is hidden by a later declaration |
| Examples.AdmittedWithoutSection | internal/webhooks/webhook_utils.go:103-139 | a route naming a section that no listener of its gateway has is admitted |
| Examples.OverflowGrantsNothing | internal/pkg/utils.go:218-230 | a grant with 16 equal from-entries and 8 equal to-entries lists a pair 128 times and grants nothing |
| Samples.ForbiddenNotAttached | internal/pkg/cache.go:430-460 | a route that names a service of another namespace without a grant does not have it attached |
| Samples.GrantedAttached | internal/pkg/cache.go:430-460 | with a grant there it does |
| Samples.SameNamespaceOnly | internal/pkg/utils.go:85-86 | of two routes that name a listener with the policy Same, the one in the gateway's namespace is attached |
| Samples.ClassServed | internal/pkg/parser.go:46-78 | a class with one listener, address and route has a tenant that serves it and runs the route's iRule once |
| Samples.SentOnce | internal/pkg/utils.go:462-475 | of two batches with the same tenant only the first is sent |

## Left out

- Kubernetes clients, manager and webhook wiring, start-up synchronisation, flags, logging and metrics: I/O without logic of its own.
- The AS3 call itself: a successful send replaces the listed tenants and keeps the others; a failed one leaves the listed tenants of that BIG-IP in any state.
- Suppression.SentIff: assumes at least one BIG-IP, because without one nothing is sent or reported.
- ServiceUse and Certificates: their laws need an exact grant index, which Ownership.CacheIndexExact gives while no pair is listed more than 127 times; GrantIndex.ExistsRightIff says what happens beyond.
- Interleavings inside one reconcile: each reconcile and each batch is one step, although rendering and queueing take separate locks in the source.
- Convergence.Converges: says nothing of a tenant whose name is a namespace of services or a field of the AS3 header, because other requests write tenants of those names too.
- Namespace tenants over runs: NamespaceCompleteIff says what one deployment of classes leaves in them, and HandleBackends what one deployment of backends does; how they develop over a run is not stated.
- Nil section names: the source dereferences them; `SectionsSafe` says when it does not, and stored routes have them set.
- What follows a nil pointer: ReconcileGateway says when one is dereferenced; the restart of the program is not modelled.
- Convergence.Converges: after a failed deployment it counts every class as left behind whose inputs the event changed, or whose tenant was sent, although the BIG-IPs may happen to hold the right tenant.
- Other errors of the API server: a reconcile finds its object or learns that it is gone.
- Nil address types: an address always has a type here.
- Error messages: an error is only whether there is one, except in the webhooks' list of invalid references.
- The text of iRules: conditions, actions and pools are token lists; quoting, redirect text and the device's own treatment of the static pool arrays of several iRules are not modelled.
- Formatting of pool members from services, endpoints and nodes (internal/k8s): members are given with the endpoints.
- The GatewayClass, Gateway and Secret webhooks, and validation of backend references: they would add scans like the ones modelled.
