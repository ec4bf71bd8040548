# ovh-external-dns: one reconciliation pass, modelled in Dafny

ovh-external-dns is a Kubernetes controller. It keeps an OVH DNS zone in line
with the hosts declared by the cluster's ingresses, and it runs in passes.

One pass (`Reconcile`):

- lists the ingresses and loads the configuration;
- resolves the cluster's external address through a cache;
- loads every record of the zone into an `A` bucket and a `CNAME` bucket;
- issues provider write calls one by one, and stops at the first that fails:
  - it retargets every apex `A` record (empty subdomain) whose target is not
    the address, or adds one when none exists;
  - it adds or retargets the alias (`CNAME`) record of each host;
  - it deletes every loaded alias whose full name is no longer a host.

The model has five modules: one per source file, a shared one and one of
properties.

- `Common` (`common.dfy`): Go's `int64`, `Option`, `Result`, an error value
  and the two configuration fields used (zone name and TTL).
- `OvhRecords` (`ovhrecord.dfy`), from `controllers/ovhrecord.go`:
  - the `OVHRecord` value, `InitWithConfig` and `Compare`;
  - the first-match search behind `GetRecordBySubDomain`;
  - the `OVHManager` class, whose `LoadRemoteRecords` method appends the
    fetched records to the bucket of their type.
- `Ip` (`ip.dfy`), from `controllers/ip.go`:
  - the `IP` class with `GetIP`;
  - the function `Get`, which specifies `GetIP`;
  - lemmas on staleness and refresh.
- `Controller` (`controller.dfy`), from `controllers/ingress_ovh_controller.go`:
  - `Reconcile` and its loops as methods;
  - functions (`ApexCalls`, `HostCalls`, `PruneCalls`, `Plan`) that give the
    calls a pass makes when nothing fails;
  - the function `Issued`, which gives what the pass sends when it stops at
    the first failure.
- `PlanProperties` (`properties.dfy`): lemmas on the plan. They cover which
  calls occur, their payloads, their order, and when a pass issues nothing.

Inputs that come from outside the process are parameters:

- the ingress listing and the configuration load (a `Result`);
- the clock reading, in Unix seconds;
- the address lookup: a failure, or a decoded body whose `query` field may be
  absent;
- the record-id listing (a `Result`) and the fetch of each id (a function from
  id to `Result`);
- the provider's answer to each write call: the set `failing` of the indices
  of the pass's write calls that fail.

A pass returns the calls it issued, in order, the failing one included, and
whether it requeues.

## Behaviour as written

In several places the code does something other than what a reader of its
design would expect. The model follows the code.

- **Hosts outside the zone are not skipped.** The subdomain is
  `strings.ReplaceAll(host, "."+zone, "")`: every occurrence is removed, not
  just a suffix. A host without `"."+zone` is looked up under its whole name.
  Unless `host.zone` is listed as a host too, such an alias is added in one
  pass and deleted in the next, because its full name is not the host
  (`OutOfZoneHostNeverSettles`). Removal resumes right after each occurrence
  (`RemoveAllFirst`).
- **Duplicate hosts are not collapsed.** Lookups see only the records loaded
  before any write. So a missing host listed `k` times is added `k` times
  (`RepeatedMissingHost`).
- **Every stale apex record is updated**, not just the first one
  (`ApexUpdatesMembers`).
- **A staleness bound of 0 does not force a refresh.** The test is a strict
  `>` on Unix seconds, so a second call in the same second is served from the
  cache (`ZeroTimeoutSameSecond`). Only a negative bound refreshes on every
  call (`NegativeTimeoutAlwaysRefreshes`).
- **The error is never returned.**
  - Every failure returns `ctrl.Result{}` with a nil error.
  - A pass that issues every call without failure returns `Requeue: true`.
- **Pruning compares full names rather than desired subdomains**:
  `SubDomain + "." + zone` must equal some host string. For hosts one label
  below the zone, the two agree (`LabelHostRoundTrip`).

## Model

| member | source | states |
|---|---|---|
| OvhRecords.InitWithConfig | controllers/ovhrecord.go:48-53 | the result is a `CNAME` for the given subdomain, targets zone+"." with the configured TTL, and keeps the record's id and zone |
| OvhRecords.CompareIgnoresId | controllers/ovhrecord.go:54-56 | Compare holds exactly when the two records are equal once their ids are ignored |
| OvhRecords.CompareIsEquivalence | controllers/ovhrecord.go:54-56 | Compare is reflexive, symmetric and transitive |
| OvhRecords.InitWithConfigCompare | controllers/ovhrecord.go:48-56 | two records initialised for the same subdomain and configuration compare equal exactly when they were in the same zone |
| OvhRecords.InitWithConfigIdempotent | controllers/ovhrecord.go:48-53 | initialising twice is initialising once |
| OvhRecords.FindBySubDomainFirstMatch | controllers/ovhrecord.go:65-72 | the search succeeds exactly when some record has the subdomain, and then returns the first such record; otherwise it returns the zero record with "record not found" |
| OvhRecords.OfTypeMembers | controllers/ovhrecord.go:113-117 | a bucket holds exactly the fetched records of its type |
| OvhRecords.OfTypeConcat | controllers/ovhrecord.go:107-118 | bucketing keeps fetch order: the bucket of a concatenation is the concatenation of the buckets |
| OvhRecords.OtherTypesInNoBucket | controllers/ovhrecord.go:113-117 | a record neither `A` nor `CNAME` is in neither bucket |
| OvhRecords.FetchedUpToFailure | controllers/ovhrecord.go:107-112 | when fetches 0..k-1 succeed and fetch k fails, exactly records 0..k-1 are fetched, and the error is fetch k's |
| OvhRecords.OVHManager.Init | controllers/ovhrecord.go:74-76 | a new manager has empty buckets and the given configuration |
| OvhRecords.OVHManager.AddToBucket | controllers/ovhrecord.go:113-117 | an `A` record is appended to the `A` bucket, a `CNAME` to the `CNAME` bucket, and any other record is dropped |
| OvhRecords.OVHManager.LoadRemoteRecords | controllers/ovhrecord.go:97-121 | a listing failure returns its error with the buckets unchanged; otherwise each bucket is its old contents followed by the fetched records of its type, up to the first failing fetch, whose error is returned |
| Ip.LookupIffStale | controllers/ip.go:22 | the address service is contacted exactly when now minus the last check exceeds the bound strictly |
| Ip.CacheHit | controllers/ip.go:22-54 | a fresh cache returns its address with no lookup and no change |
| Ip.HitIgnoresLookup | controllers/ip.go:22-54 | on a fresh cache the outcome is the same whatever the address service would answer |
| Ip.SuccessRefreshes | controllers/ip.go:47-54 | a successful lookup stamps the cache with now and returns the new address (the old one when the body has no `query`) |
| Ip.FailureRetries | controllers/ip.go:29-50 | a failed lookup returns "" and the error, leaves the cache unchanged, and the next call at the same instant looks up again |
| Ip.TwoCallsWithinBound | controllers/ip.go:22-54 | after a successful lookup, a call within the bound is served from the cache |
| Ip.TwoCallsSpanningBound | controllers/ip.go:22-54 | two successful calls more than the bound apart both look up |
| Ip.ZeroTimeoutSameSecond | controllers/ip.go:22 | with a zero bound, a call in the same second as the last check does not look up |
| Ip.NegativeTimeoutAlwaysRefreshes | controllers/ip.go:22 | with a negative bound, every call whose clock has not gone back looks up |
| Ip.FirstCallRefreshes | controllers/ip.go:13-22 | from the zero timestamp, any call after 1970 with a bound below 62135596800 seconds looks up |
| Ip.IP.constructor | controllers/ip.go:13-16 | the zero value has an empty address and Go's zero time |
| Ip.IP.GetIP | controllers/ip.go:18-55 | the new state, the returned address and the error are those `Get` gives for the old state |
| Controller.HostsMembers | controllers/ingress_ovh_controller.go:64-69 | a host is collected exactly when some rule of some ingress declares it |
| Controller.CollectHosts | controllers/ingress_ovh_controller.go:64-69 | the hosts are every rule's host, ingress by ingress, rule by rule |
| Controller.RemoveAll | controllers/ingress_ovh_controller.go:111 | removing a non-empty pattern never lengthens the string |
| Controller.RemoveAllAbsent | controllers/ingress_ovh_controller.go:111 | a host that does not contain "."+zone is its own subdomain |
| Controller.RemoveAllLabel | controllers/ingress_ovh_controller.go:111 | the subdomain of `name.zone`, for a dot-free `name`, is `name` |
| Controller.RemoveAllFirst | controllers/ingress_ovh_controller.go:111 | when the pattern first occurs right after a prefix `a`, the result is `a` followed by the removal applied to what comes after the occurrence; with `RemoveAllAbsent` this fixes the result on every input |
| Controller.IssuedLogUnique | controllers/ingress_ovh_controller.go:90-146 | the log of a pass is determined by the plan and the provider's answers |
| Controller.StopsAtFirstFailure | controllers/ingress_ovh_controller.go:90-146 | when call k is the first to fail, the log is exactly calls 0..k and the pass does not requeue |
| Controller.IssuedIsLog | controllers/ingress_ovh_controller.go:90-146 | issuing a plan yields a prefix of it whose calls all succeed except the last, which fails; the pass requeues exactly when the whole plan succeeded |
| Controller.IssuedConcat | controllers/ingress_ovh_controller.go:80-146 | issuing two parts is issuing the first, then the second only if the first went through |
| Controller.IssuedAbort | controllers/ingress_ovh_controller.go:90-93 | a call that fails after successful ones ends what is issued, and the part is not complete |
| Controller.IssuedAll | controllers/ingress_ovh_controller.go:80-146 | a part without failures is issued whole |
| Controller.ApplyApexUpdates | controllers/ingress_ovh_controller.go:80-96 | the `A` loop notes whether an apex record exists and issues the apex updates up to the first failure |
| Controller.ApplyApex | controllers/ingress_ovh_controller.go:80-108 | the apex phase issues the apex updates, then the apex Add when there was no apex record, up to the first failure |
| Controller.HostCall | controllers/ingress_ovh_controller.go:110-127 | the call for one host is the one `HostStep` gives |
| Controller.HostTurn | controllers/ingress_ovh_controller.go:110-128 | one turn of the host loop extends the log by that host's call or stops the pass at its failure |
| Controller.ApplyHosts | controllers/ingress_ovh_controller.go:110-128 | the host phase issues the host calls, in host order, up to the first failure |
| Controller.IsStillNecessary | controllers/ingress_ovh_controller.go:130-137 | true exactly when some host equals the full name |
| Controller.ApplyPrune | controllers/ingress_ovh_controller.go:129-145 | the prune phase issues the deletes, in bucket order, up to the first failure |
| Controller.ApplyRecords | controllers/ingress_ovh_controller.go:80-146 | the three phases together issue the plan up to the first failure, and requeue exactly when no call failed |
| Controller.Reconcile | controllers/ingress_ovh_controller.go:42-147 | a listing, configuration, address or record-load failure returns no requeue with no write call; otherwise the log is the plan over the loaded buckets issued up to the first failure |
| PlanProperties.NoApexNoUpdates | controllers/ingress_ovh_controller.go:80-96 | without an apex record no update is issued |
| PlanProperties.NoApexSingleAdd | controllers/ingress_ovh_controller.go:97-108 | without an apex record the apex phase is exactly one Add of an `A` record at "" targeting the address with the configured TTL |
| PlanProperties.ApexUpdatesMembers | controllers/ingress_ovh_controller.go:81-96 | an update is issued exactly for each apex record whose target is not the address, retargeted to it |
| PlanProperties.UpdatedApexKeepsIdentity | controllers/ingress_ovh_controller.go:84-89 | an updated apex record keeps its id, zone, type and subdomain; only target and TTL change |
| PlanProperties.ApexCallsMembers | controllers/ingress_ovh_controller.go:80-108 | every apex call is an update of a stale apex record or the Add made when there is none; non-apex records and apex records already at the address get no call |
| PlanProperties.ApexUpdatesKinds | controllers/ingress_ovh_controller.go:81-96 | the `A` loop only issues Updates, of `A` records at "" targeting the address |
| PlanProperties.HostStepCases | controllers/ingress_ovh_controller.go:110-127 | a host with no loaded alias gets an Add of a fresh `CNAME`; with one, the first such alias is updated (keeping its id and zone) exactly when its target is wrong |
| PlanProperties.HostStepEmpty | controllers/ingress_ovh_controller.go:110-127 | a host gets no call exactly when its first loaded alias exists and already targets zone+"." |
| PlanProperties.HostCallsConcat | controllers/ingress_ovh_controller.go:110-128 | host calls follow host order |
| PlanProperties.HostCallsEmpty | controllers/ingress_ovh_controller.go:110-128 | the host loop issues nothing exactly when no host needs a call |
| PlanProperties.HostCallsKinds | controllers/ingress_ovh_controller.go:110-127 | host calls are Adds or Updates of `CNAME` records targeting zone+"." with the configured TTL |
| PlanProperties.RepeatedMissingHost | controllers/ingress_ovh_controller.go:74-128 | a host listed k times whose subdomain is not loaded is added k times |
| PlanProperties.PruneCallsMembers | controllers/ingress_ovh_controller.go:129-145 | the prune calls are exactly the Deletes of loaded aliases whose full name is no host |
| PlanProperties.PruneDeletes | controllers/ingress_ovh_controller.go:129-145 | a loaded alias is deleted exactly when no host equals its full name |
| PlanProperties.PruneCallsConcat | controllers/ingress_ovh_controller.go:129-145 | deletes follow the order of the alias bucket |
| PlanProperties.PlanPhases | controllers/ingress_ovh_controller.go:80-145 | apex calls come first, then host calls, with deletes last |
| PlanProperties.ConvergedIffNoCalls | controllers/ingress_ovh_controller.go:80-145 | a pass issues no call exactly when the zone is converged: an apex record exists and every apex record targets the address, every host's first alias targets zone+".", and every alias's full name is a host |
| PlanProperties.LabelHostRoundTrip | controllers/ingress_ovh_controller.go:111-130 | for a host one label below the zone, the alias the host loop creates has the host as full name, so pruning keeps it |
| PlanProperties.OutOfZoneHostNeverSettles | controllers/ingress_ovh_controller.go:110-145 | for a listed host without "."+zone whose `host.zone` is not listed: its subdomain is the host itself, a pass adds its alias when no loaded alias has that subdomain, and deletes every loaded alias that has it |

## Left out

- The OVH client is not modelled:
  - `ovh.NewClient`, its credentials and the error `Init` returns, which
    `Reconcile` discards;
  - URL formatting, and the HTTP `Get`, `Post`, `Put` and `Delete` calls.
  - Each write call is recorded as a `Call` value. Its outcome comes from
    `failing`.
  - A Delete sends only the record's id. The model records the whole record.
- The provider's zone state is not modelled from one pass to the next. The
  properties are about the calls of a single pass, not about the zone after
  it.
- The HTTP request, body read and JSON decoding in `GetIP` become a lookup
  result. The one case kept is a decoded body without `query`: the cached
  address stays and the timestamp still advances. A type error that
  `json.Unmarshal` reports after decoding part of a body is treated as a
  failure that changes nothing.
- `time.Now()` becomes a parameter in Unix seconds.
- Ip.Stale: the difference `now - lastCheck` is taken in unbounded integers.
  Go's int64 subtraction could wrap for timestamps near the int64 range, which
  no clock produces.
- Kubernetes plumbing is not modelled: `r.List`, `DeepCopy`,
  `SetupWithManager` and the request context. The ingress listing is a
  `Result` of ingresses, each reduced to its rules' hosts.
- Configuration loading (`controllers/config.go`) is not part of this model.
  The configuration is a `Result` input with the zone name and TTL.
- Logging is not modelled.
- The package-level `ipCache` and `conf` are not modelled as globals. The
  cache is an `IP` object passed to each pass, and passes are sequential.
- `InitWithConfig` updates its receiver in place in Go. Every caller applies
  it to a local copy, so the model uses a function that returns the updated
  record.
- `GetRecordBySubDomain` and `GetZone` are read-only functions on the manager
  with no contract of their own. `GetRecordBySubDomain` is the search that
  `FindBySubDomainFirstMatch` specifies, on the `CNAME` bucket only.
  `GetZone` gives the zone every call is addressed to.
- `docker/server.go` is a standalone debugging program and is not part of
  this model.
