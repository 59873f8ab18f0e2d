# OpenStack and cluster plumbing, verified

This project models the parts of the BCPC cookbook that carry its own logic and proves what they keep.

- **Network visibility.** `Sql` is a small relational algebra with NULLs and three-valued logic. `ModelQuery` is
  Neutron's query builder over it: hook registry, project scoping, the hoisted `shared` filter, collection filters
  and counts. `QueryMeaning` proves what the built queries return, above all that the inner join plus union means the
  same as the outer join it replaced. `ExternalNet` holds the external-network handlers over their tables,
  `ExternalNetRuns` the runs of network, policy and router operations around them, `ExternalNetCases` their effects and
  the runs in which a claim fails, and `NetworkVisibility` joins the two: who sees a network, and what a caller's
  look-ups reach.
- **LightOS volumes.** `LightOsAcl` has the edits of the host list and the IP list, `LightOsHistory` what the IP list
  holds after a series of them, `LightOsProtocol` many hosts making them concurrently through conditional PUTs
  (If-Match, section 13.1.1 of RFC 9110), `LightOsConnection` the API server failover, `LightOsDriver` the retry and
  wait loops, and `LightOsConnector` the message queue, database and
  discovery files of a compute host.
- **Live migration.** `Downtime` has the downtime ramp and its use over a run, `LiveMigration` forced completion,
  timeout and recovery.
- **Addresses.** `Addressing` moves a host id between networks with shifts and OR; `ReverseZones` splits a CIDR into
  reverse DNS zones (section 3.5 of RFC 1035).
- **Instances.** `InstanceMetadata` tracks metadata changes against the stored rows, `ExpectedCols` lists the columns
  to join.

Objects whose methods update fields are classes here; their methods are proved equal to functions on a snapshot of
those fields, and the lemmas about runs are about those functions. What a caller, libvirt, the cluster or the network
may do (which call fails, which reply is lost, in which order a set is listed) is a parameter or an event that the
theorems quantify over.

`dafny verify dfyconfig.toml` checks the whole project.

## Where the code and its documentation differ

- `external_net_db.py:48-51`: `&` binds tighter than `|`, so a wildcard entry of any action passes the external hook.
  The model follows the code (`NetworkVisibility.TenantAllowedMeans`, `NetworkVisibility.VisibleIff`).
- `model_query.py:184-200`: the scoped `shared=[False]` filter is joined to a union with all own objects, so an own
  shared object is still returned (`QueryMeaning.ScopedUnsharedShows`).
- `model_query.py:207-212`: with `shared=[True]` the union is gone, and with it the removal of repetitions that
  `get_collection_count` relies on (`QueryMeaning.SharedCountExact`; an input for both:
  `QueryMeaning.SharedObjectListedAndCountedTwice`).
- `utils.rb:362`: for a CIDR whose own address lies beyond its first /24 the zones run past the CIDR
  (`ReverseZones.UnalignedZones`; exactly when: `ReverseZones.ZonesCoverExactly`).
- `instance.py:1202-1204` asks that the key be held; `InstanceMetadata.StepFaithfulIff` says exactly what happens
  otherwise.

## Where a property fails, and exactly when

- "External if and only if some external entry names it". A project may delete the last external entry of a network
  that it then no longer sees, and the look-up in AFTER_DELETE fails before the network is made internal
  (`ExternalNetCases.BlindDeletionOrphans`). And a project that counts only its own entries makes a network internal
  while another's entry is left (`ExternalNetCases.OthersEntryLeftBehind`). Exactly when:
  `ExternalNetRuns.ClaimUnlessBroken`, `ExternalNetRuns.ExternalIffEntryExactly`.
- "A change that strands a router is refused", and "only such a change is": a project does not find other projects'
  routers (`ExternalNetCases.UnseenRouterStranded`) nor their wildcard entries
  (`ExternalNetCases.HiddenWildcardIgnored`), and the validator does not take a new wildcard, or an empty new name, for
  an entry (`ExternalNetCases.HarmlessChangesRefused`). Exactly when: `ExternalNetRuns.ValidateRefusesExactlyStranding`.
- "AFTER_DELETE never finds the network in use": `ExternalNetCases.OthersGatewayRaises`; exactly when:
  `ExternalNetRuns.DeletePolicyOutcome`, and never for callers that find all rows
  (`ExternalNetRuns.UnlimitedBreaksNothing`).
- "A listed host has its addresses on the IP list", and "a repeated add changes nothing". The list is cut to sixteen
  in whatever order a set is listed (`LightOsHistory.SeventeenthAddress`; exactly when:
  `LightOsHistory.CutOnlyWithoutRoom`, `LightOsAcl.AddedAddressesKept`, `LightOsAcl.RepeatedAddSettles`), and removing
  a host takes addresses it shares with another (`LightOsHistory.SharedAddressLost`). Over a run, exactly when:
  `LightOsProtocol.EveryRunKeepsAddresses`.
- "Every unsaved change is reported": not after a delete of a key that the object had dropped
  (`InstanceMetadata.DropDeleteSetGoesUnreported`; exactly when: `InstanceMetadata.StepAccountedIff`,
  `InstanceMetadata.AccountedIffKeepsReporting`).
- "Recovery resumes the guest" (`LiveMigration.UnreadableGuestStaysPaused`; exactly when:
  `LiveMigration.RecoveryResumes`), and "the guest has the downtime that was returned"
  (`Downtime.FailedChangeNotRetried`; exactly when: `Downtime.GuestLagsFailedChange`).

## Model

| member | source | states |
|---|---|---|
| `ModelQuery.Registry.RegisterHook` | chef/cookbooks/bcpc/files/default/neutron/model_query.py:65-93 | registration changes the hooks of one model only: the hook of that name is replaced where it stands or comes last |
| `QueryMeaning.UpsertInstalls` | chef/cookbooks/bcpc/files/default/neutron/model_query.py:88-93 | after a registration exactly that hook answers to the name, every other name keeps its hook, and names stay distinct |
| `QueryMeaning.UpsertTwice` | chef/cookbooks/bcpc/files/default/neutron/model_query.py:88-93 | registering a name again leaves one hook of that name, so building the mixin twice does not apply its filter twice |
| `QueryMeaning.RegisteredHooksInOrder` | chef/cookbooks/bcpc/files/default/neutron/model_query.py:88-104 | the builder runs the registered hooks in order: a new name's last, a known name's where the old one stood |
| `ModelQuery.Registry.QueryWithHooks` | chef/cookbooks/bcpc/files/default/neutron/model_query.py:123-238 | the imperative builder yields the specified query for every caller, model kind, hook list and hoisted filter, and fails exactly on a failing hook or an empty `shared` list |
| `QueryMeaning.WideningHooks` | chef/cookbooks/bcpc/files/default/neutron/model_query.py:155-166 | a list of widening hooks runs without error and lets through what the filter or one of the additions does |
| `QueryMeaning.PlainFiltersNarrow` | chef/cookbooks/bcpc/files/default/neutron/model_query.py:159-238 | plain filters of hooks restrict the whole result, own rows included, for every caller, model and filter list |
| `QueryMeaning.FailingHookFails` | chef/cookbooks/bcpc/files/default/neutron/model_query.py:155-166 | one hook that fails whatever it is given fails the query |
| `QueryMeaning.FailsOnEmptyShared` | chef/cookbooks/bcpc/files/default/neutron/model_query.py:184 | otherwise only an empty `shared` list on a model with entries fails |
| `QueryMeaning.ColumnModelShows` | chef/cookbooks/bcpc/files/default/neutron/model_query.py:149-153 | for models without entries a scoped caller gets its own objects and those with a true `shared` column, an unscoped one all |
| `QueryMeaning.ScopedQueryShows` | chef/cookbooks/bcpc/files/default/neutron/model_query.py:138-166 | for every filter list without `shared`, a scoped caller gets its own objects and those with an entry that the grant or a hook lets through |
| `QueryMeaning.OuterJoinQueryShows` | chef/cookbooks/bcpc/files/default/neutron/model_query.py:168-169 | what the outer-join form, hooks applied to "owned or granted" as a whole, returns |
| `QueryMeaning.RewriteKeepsMeaning` | chef/cookbooks/bcpc/files/default/neutron/model_query.py:218-233 | for every filter list without `shared`, inner join plus union of own rows returns the objects of the outer-join form if and only if no hook lets through an entry-less object of another project; null-rejecting hooks never do |
| `QueryMeaning.ScopedSharedShows` | chef/cookbooks/bcpc/files/default/neutron/model_query.py:170-216 | a scoped query whose `shared` filter is true, whatever the other filters, returns exactly the objects with an access_as_shared entry for the caller or everyone |
| `QueryMeaning.ScopedSharedIsFilteredOuterJoin` | chef/cookbooks/bcpc/files/default/neutron/model_query.py:208-216 | that result equals filtering the outer-join form on a sharing entry |
| `QueryMeaning.ScopedUnsharedShows` | chef/cookbooks/bcpc/files/default/neutron/model_query.py:184-200 | a scoped query whose `shared` filter is false returns own objects and visible unshared ones; it is "visible and not shared" if and only if no own object is shared |
| `QueryMeaning.UnscopedSharedPartitions` | chef/cookbooks/bcpc/files/default/neutron/model_query.py:170-216 | for an unscoped caller any filter list with a true and any with a false `shared` split the table |
| `ModelQuery.BuiltRowsDistinct` | chef/cookbooks/bcpc/files/default/neutron/model_query.py:218-233 | no built query repeats a row, and unless `shared` was asked for none repeats an object, however many entries match |
| `ModelQuery.Registry.GetById` | chef/cookbooks/bcpc/files/default/neutron/model_query.py:241-252 | the object of that id if the caller's query returns one, otherwise NoResultFound; never MultipleResultsFound |
| `QueryMeaning.JoinedCountExact` | chef/cookbooks/bcpc/files/default/neutron/model_query.py:140 | a joined query's row count is its number of objects if and only if no object is matched through two entries |
| `QueryMeaning.SharedCountExact` | chef/cookbooks/bcpc/files/default/neutron/model_query.py:207-212 | with a true `shared` the scoped count is exact if and only if no object is shared with the caller through two entries |
| `QueryMeaning.SharedObjectListedAndCountedTwice` | chef/cookbooks/bcpc/files/default/neutron/model_query.py:184-212 | an input where both fail: an own object shared with everyone and by name is among the unshared ones and counts twice among the shared ones |
| `QueryMeaning.ScopedCountIsVisible` | chef/cookbooks/bcpc/files/default/neutron/model_query.py:395-407 | without that filter the scoped count is the number of objects owned or granted |
| `ModelQuery.ColumnFilterIsMembership` | chef/cookbooks/bcpc/files/default/neutron/model_query.py:284-296 | both renderings of a value list, IN and a disjunction with IS NULL, accept exactly the listed values under three-valued logic |
| `QueryMeaning.ProjectFilterSelects` | chef/cookbooks/bcpc/files/default/neutron/model_query.py:255-304 | a "tenant_id" or "project_id" filter selects from what the caller may see exactly the objects of the listed projects |
| `ModelQuery.Registry.ApplyFilters` | chef/cookbooks/bcpc/files/default/neutron/model_query.py:255-304 | keeps exactly the rows whose id, project and shared values are among those listed under "id", under "project_id" or "tenant_id", and under "shared" on a model with that column, and that every result filter accepts; other keys restrict nothing, and no repetition is added |
| `ModelQuery.Registry.GetCollectionQuery` | chef/cookbooks/bcpc/files/default/neutron/model_query.py:307-345 | returns the rows of the built query that pass the filters, or the builder's error |
| `ModelQuery.Registry.GetCollectionCount` | chef/cookbooks/bcpc/files/default/neutron/model_query.py:395-407 | the count is the number of selected rows for every filter list, and unless `shared` is asked for the number of selected objects |
| `ExternalNet.ExternalNetMixin.ProcessL3Create` | chef/cookbooks/bcpc/files/default/neutron/external_net_db.py:91-106 | external row, wildcard entry and caller dictionary after a create request with a value that is true, false or absent, errors included |
| `ExternalNetCases.CreatedAsAsked` | chef/cookbooks/bcpc/files/default/neutron/external_net_db.py:91-106 | a created network is external, and has an external entry, if and only if that was asked for; otherwise the network row is all that is added |
| `ExternalNet.ExternalNetMixin.ProcessL3Update` | chef/cookbooks/bcpc/files/default/neutron/external_net_db.py:108-140 | external row, entries and caller dictionary after an update request, whether or not the dictionary has the external key; made internal, the network loses those external entries that the caller finds, and it is refused while a gateway port is on the network |
| `ExternalNetCases.UpdateToSameChangesNothing` | chef/cookbooks/bcpc/files/default/neutron/external_net_db.py:108-115 | an update that names no value or the one the network has changes nothing |
| `ExternalNetCases.UpdateWithoutKey` | chef/cookbooks/bcpc/files/default/neutron/external_net_db.py:114-121 | network data without the external key never equals the value asked for, so the update is carried out |
| `ExternalNet.ExternalNetMixin.ProcessExtPolicyCreate` | chef/cookbooks/bcpc/files/default/neutron/external_net_db.py:147-166 | BEFORE_CREATE: not found unless the caller sees the network, invalid unless admin or owner, otherwise the network is made external if it is not |
| `ExternalNet.ExternalNetMixin.ProcessExtPolicyDelete` | chef/cookbooks/bcpc/files/default/neutron/external_net_db.py:168-185 | AFTER_DELETE: when the deleter counts no other external entry, the network becomes internal if the deleter sees it and no gateway is on it |
| `ExternalNet.ExternalNetMixin.ValidateNotInUse` | chef/cookbooks/bcpc/files/default/neutron/external_net_db.py:187-243 | BEFORE_UPDATE and BEFORE_DELETE: the caller's count of wildcard entries and its router look-up, and the unlimited look-ups of ports and projects, decide as specified |
| `ExternalNetCases.MadeExternalForEveryone` | chef/cookbooks/bcpc/files/default/neutron/external_net_db.py:98-126 | made external by request, a network gets one more external entry, its tenant's wildcard, the only one where entries make networks external, and covers every project |
| `ExternalNetCases.MadeExternalByPolicy` | chef/cookbooks/bcpc/files/default/neutron/external_net_db.py:162-166 | made external by a policy, a network gets that entry; where entries make networks external it has that one alone and covers exactly its target |
| `ExternalNetCases.MadeInternal` | chef/cookbooks/bcpc/files/default/neutron/external_net_db.py:127-140 | un-externalising removes the external row and the external entries the caller finds and nothing else, leaves entries if and only if some are hidden from the caller, and is refused if and only if a gateway is on the network |
| `ExternalNetCases.OnlyOwnersAndAdmins` | chef/cookbooks/bcpc/files/default/neutron/external_net_db.py:157-161 | an external policy is not found if and only if the caller does not see the network, and invalid if and only if it does and is neither admin nor owner; either way nothing changes |
| `ExternalNetCases.OtherPoliciesLeaveExternal` | chef/cookbooks/bcpc/files/default/neutron/external_net_db.py:147-203 | policies of other actions are added, retargeted and deleted without touching external rows or entries |
| `ExternalNetRuns.CreateNetworkKeepsInv` | chef/cookbooks/bcpc/files/default/neutron/external_net_db.py:91-106 | creating a network with fresh ids succeeds and keeps the invariant and every claim |
| `ExternalNetRuns.UpdateNetworkKeepsInv` | chef/cookbooks/bcpc/files/default/neutron/external_net_db.py:108-140 | a network update keeps the invariant, orphans no network and strands no router; it leaves entries behind if and only if it makes a network internal that has some the caller does not find |
| `ExternalNetRuns.CreatePolicyKeepsInv` | chef/cookbooks/bcpc/files/default/neutron/external_net_db.py:147-166 | a policy creation keeps the invariant and every claim; where entries make networks external, the entry that first makes one external is never a duplicate |
| `ExternalNetRuns.ValidatedKeepsCovered` | chef/cookbooks/bcpc/files/default/neutron/external_net_db.py:187-243 | a retargeting or deletion the validator lets through keeps every gateway router's project covered if and only if it is no stranding of a router hidden from the caller; for callers that find all rows always |
| `ExternalNetRuns.ValidateRefusesExactlyStranding` | chef/cookbooks/bcpc/files/default/neutron/external_net_db.py:204-243 | for every caller, deletion and retargeting: let through if and only if it leaves no gateway router without an entry, or only one hidden from the caller, takes no default network's wildcard, and is none of the harmless changes refused in error; a default network's is refused as such exactly when it would lose its wildcard |
| `ExternalNetRuns.CoverageExactly` | chef/cookbooks/bcpc/files/default/neutron/external_net_db.py:209-240 | what a deleted or retargeted entry does to coverage, in terms of entries and gateway routers alone |
| `ExternalNetRuns.WideningJudgedAsDeletion` | chef/cookbooks/bcpc/files/default/neutron/external_net_db.py:209-222 | retargeting a project's entry to everyone never strands a router, yet is let through exactly when deleting the entry is, for callers that find all rows if and only if the deletion would strand none |
| `ExternalNetCases.HarmlessChangesRefused` | chef/cookbooks/bcpc/files/default/neutron/external_net_db.py:209-240 | a state for each of the two refusals in error: widening to everyone, and retargeting the wildcard to an empty name |
| `ExternalNetCases.HiddenWildcardIgnored` | chef/cookbooks/bcpc/files/default/neutron/external_net_db.py:213-219 | a state for the third: a project's own entry is kept though another project's wildcard entry serves its gateway |
| `ExternalNetRuns.UpdatePolicyKeepsInv` | chef/cookbooks/bcpc/files/default/neutron/external_net_db.py:187-203 | a policy retargeting keeps the invariant, leaves no entries behind and orphans no network; it strands a router if and only if that router is hidden from the caller |
| `ExternalNetRuns.DeletePolicyOutcome` | chef/cookbooks/bcpc/files/default/neutron/external_net_db.py:168-185 | which rows an allowed deletion leaves and how AFTER_DELETE ends, for every caller: not found, in use and done each if and only if |
| `ExternalNetRuns.DeletePolicyCompletes` | chef/cookbooks/bcpc/files/default/neutron/external_net_db.py:168-185 | where the claims hold and the deleter finds all rows: after an allowed deletion of the last external entry no gateway is left; AFTER_DELETE completes if and only if the deleter is unscoped, owns the network or another entry opens it to the deleter, and otherwise ends in not-found with the network left external and no entry |
| `ExternalNetRuns.DeletePolicyKeepsInv` | chef/cookbooks/bcpc/files/default/neutron/external_net_db.py:168-185 | a policy deletion keeps the invariant; it leaves entries behind, orphans a network or strands a router each if and only if its condition says so |
| `ExternalNetRuns.RunKeepsInv` | chef/cookbooks/bcpc/files/default/neutron/external_net_db.py:91-243 | every run from empty tables, whoever calls, keeps: rows that refer to networks, unique entries, gateways and routers one to one, default networks shared to everyone |
| `ExternalNetRuns.ClaimUnlessBroken` | chef/cookbooks/bcpc/files/default/neutron/external_net_db.py:91-243 | for each claim (entries make networks external, external networks have an entry, gateways are covered), whoever calls: it holds all through a run if and only if no step of the run breaks it |
| `ExternalNetRuns.ExternalIffEntryExactly` | chef/cookbooks/bcpc/files/default/neutron/external_net_db.py:91-185 | "external if and only if some external entry names it" holds all through a run if and only if no step leaves entries behind or orphans a network |
| `ExternalNetRuns.UnlimitedBreaksNothing` | chef/cookbooks/bcpc/files/default/neutron/external_net_db.py:168-243 | where gateways are covered, a caller that finds all rows strands no router, leaves no entry behind, meets no ExternalNetworkInUse and orphans a network only by a blind deletion |
| `ExternalNetCases.OthersEntryLeftBehind` | chef/cookbooks/bcpc/files/default/neutron/external_net_db.py:180-185 | a run, for any names, in which the owner deletes its entry and the network becomes internal while another project's external entry stays |
| `ExternalNetCases.OthersGatewayRaises` | chef/cookbooks/bcpc/files/default/neutron/external_net_db.py:131-134 | the same with a gateway that the other entry serves: the deletion ends in ExternalNetworkInUse |
| `ExternalNetCases.UnseenRouterStranded` | chef/cookbooks/bcpc/files/default/neutron/external_net_db.py:213-219 | a run in which the owner deletes another project's only entry: let through, the gateway uncovered, ExternalNetworkInUse |
| `ExternalNetRuns.ExternalIffEntryUnlessBlind` | chef/cookbooks/bcpc/files/default/neutron/external_net_db.py:91-185 | in runs whose callers find all rows, "external if and only if some external entry names it" holds throughout if and only if no deletion is blind |
| `ExternalNetCases.BlindDeletionOrphans` | chef/cookbooks/bcpc/files/default/neutron/external_net_db.py:178-185 | a run of three operations, for any names, that ends with an external network no entry names: the project of an entry on another's network deletes it |
| `ExternalNetRuns.ReachableStates` | chef/cookbooks/bcpc/files/default/neutron/external_net_db.py:91-243 | in every state reached without stranding a router: gateways are only on networks their project may use, external ones unless entries were left behind, and no deletion by a caller that finds all rows ends in ExternalNetworkInUse |
| `ExternalNetCases.DeletionOnStaleValidation` | chef/cookbooks/bcpc/files/default/neutron/external_net_db.py:168-243 | a deletion going ahead on an earlier validation, in any state with covered gateways: when it strands a router and how AFTER_DELETE ends, for every caller; for callers that find all rows the validator's present answer decides both |
| `ExternalNetCases.AttachOvertakesDeletion` | chef/cookbooks/bcpc/files/default/neutron/external_net_db.py:168-185 | such a race exists: a gateway attached between validation and deletion, for any names |
| `ExternalNetCases.UncoveredGatewayBreaksDeletion` | chef/cookbooks/bcpc/files/default/neutron/external_net_db.py:128-134 | without coverage a validated deletion can end in ExternalNetworkInUse with the network external and no entry: a state for any names |
| `NetworkVisibility.TenantAllowedMeans` | chef/cookbooks/bcpc/files/default/neutron/external_net_db.py:48-51 | what the hook lets through: external entries for the caller, and wildcard entries of any action, as the operators bind |
| `NetworkVisibility.ExternalHookWidens` | chef/cookbooks/bcpc/files/default/neutron/external_net_db.py:39-53 | the registered hook widens the filter by a condition that no entry-less row satisfies |
| `NetworkVisibility.MixinRegistersHook` | chef/cookbooks/bcpc/files/default/neutron/external_net_db.py:71-79 | building the mixin, however often, leaves exactly the external-network hook for the network model |
| `NetworkVisibility.NetworkRewriteKeepsMeaning` | chef/cookbooks/bcpc/files/default/neutron/external_net_db.py:71-77 | with the hook registered the union form equals the outer-join form for every scoped caller, every filter list without `shared` and every table contents |
| `NetworkVisibility.VisibleIff` | chef/cookbooks/bcpc/files/default/neutron/model_query.py:138-166 | a project sees a network if and only if it owns it or an entry targets everyone, or targets the project with one of the three actions |
| `NetworkVisibility.SeesIsVisible` | chef/cookbooks/bcpc/files/default/neutron/external_net_db.py:157-183 | what the look-up in the policy handlers finds is exactly what the caller's built query returns, for an unscoped caller every network |
| `NetworkVisibility.LookUpsReach` | chef/cookbooks/bcpc/files/default/neutron/model_query.py:138-153 | the counts and look-ups of the policy handlers find exactly what the query builder returns for a model with a project and no entries: a limited caller's own rows, otherwise all |
| `NetworkVisibility.GatewayOwnerSeesNetwork` | chef/cookbooks/bcpc/files/default/neutron/external_net_db.py:39-53 | in every state reached without stranding a router, a project with a router gateway on a network sees the network |
| `NetworkVisibility.DeletionAffectsTargetOnly` | chef/cookbooks/bcpc/files/default/neutron/external_net_db.py:168-185 | in every reachable state deleting a non-wildcard entry, by anyone, changes no other project's list and removes at most that network from its target's |
| `NetworkVisibility.ListedIff` | chef/cookbooks/bcpc/files/default/neutron/external_net_db.py:56-62 | `router:external=[True]` lists exactly the visible networks with an external row, [False] exactly those without |
| `NetworkVisibility.ExternalListing` | chef/cookbooks/bcpc/files/default/neutron/external_net_db.py:56-62 | unless a step orphaned a network, only networks that some external entry names are listed; unless a step left entries behind, all visible ones of those |
| `LightOsAcl.AddHostKeepsGood` | chef/cookbooks/bcpc/files/default/cinder/lightos.py:1087-1091 | adding a host gives the old hosts and it, and keeps the list's shape if and only if the host does not bear the reserved name beside others |
| `LightOsAcl.RemoveHostKeepsGood` | chef/cookbooks/bcpc/files/default/cinder/lightos.py:1183-1196 | removing gives the old hosts without it, keeps the shape, and the host is really absent |
| `LightOsAcl.EditsIdempotent` | chef/cookbooks/bcpc/files/default/cinder/lightos.py:1083-1091 | repeating an add or a remove leaves the identical host list |
| `LightOsAcl.RemoveUndoesAdd` | chef/cookbooks/bcpc/files/default/cinder/lightos.py:1183-1196 | removing a newly added host gives back the identical list |
| `LightOsAcl.IpsAfterAddFacts` | chef/cookbooks/bcpc/files/default/cinder/lightos.py:1093-1126 | whatever order the set is listed in: no repetition, a subset of old and new addresses of size min(16, total), every IPv4 kept when they fit, only IPv4 when they do not |
| `LightOsAcl.AddedAddressesKept` | chef/cookbooks/bcpc/files/default/cinder/lightos.py:1093-1126 | an added host's addresses are on the written list, whatever the listing order, if and only if all offered addresses number at most sixteen, or the added ones are IPv4 and all IPv4 ones do |
| `LightOsAcl.RepeatedAddSettles` | chef/cookbooks/bcpc/files/default/cinder/lightos.py:1093-1126 | a repeated add writes the same addresses, whatever the listing orders, if and only if they fit in that sense or there are exactly sixteen IPv4 ones |
| `LightOsAcl.RepeatedRemoveSettles` | chef/cookbooks/bcpc/files/default/cinder/lightos.py:1209-1220 | a repeated remove leaves the identical IP list |
| `LightOsAcl.RetriesHarmless` | chef/cookbooks/bcpc/files/default/cinder/lightos.py:1283-1309 | a retry of an edit that did go through writes the identical volume, but for an added host's addresses when a repeated add need not settle |
| `LightOsAcl.IpsAfterAddGood` | chef/cookbooks/bcpc/files/default/cinder/lightos.py:1093-1126 | with an address to add the IP list stays non-empty and well formed |
| `LightOsAcl.RemoveIpsKeepsGood` | chef/cookbooks/bcpc/files/default/cinder/lightos.py:1209-1220 | exactly the host's addresses go, and an emptied list becomes ALLOW_NONE |
| `LightOsAcl.AddVolumeAcl` | chef/cookbooks/bcpc/files/default/cinder/lightos.py:1059-1135 | a PUT is prepared exactly for a complete OK reply, carries its UUID and ETag, and both its lists are the add applied to the lists read |
| `LightOsAcl.RemoveVolumeAcl` | chef/cookbooks/bcpc/files/default/cinder/lightos.py:1151-1229 | the same for remove, with its own missing-data cases |
| `LightOsAcl.OverwriteVolumeAcl` | chef/cookbooks/bcpc/files/default/cinder/lightos.py:1231-1259 | the same for overwrite |
| `LightOsAcl.PutDecidesMembership` | chef/cookbooks/bcpc/files/default/cinder/lightos.py:1083-1259 | the list that an accepted PUT puts in place holds the added host, not the removed one, nobody after an overwrite, and otherwise whom the list read held |
| `LightOsAcl.MembershipIsLastMention` | chef/cookbooks/bcpc/files/default/cinder/lightos.py:1083-1196 | after any series of operations a host is on the list if and only if the last operation concerning it added it |
| `LightOsHistory.CutOnlyWithoutRoom` | chef/cookbooks/bcpc/files/default/cinder/lightos.py:1093-1126 | an address on offer is on the list written, whatever the listing order, if and only if all fit, or it is IPv4 and all IPv4 ones do |
| `LightOsHistory.AddressIsLastConcern` | chef/cookbooks/bcpc/files/default/cinder/lightos.py:1093-1220 | after any series an address is on the IP list if and only if the last operation that named or cut it was an add that kept it |
| `LightOsHistory.AddressIsLastNaming` | chef/cookbooks/bcpc/files/default/cinder/lightos.py:1093-1220 | while adds have room for it: if and only if the last operation naming it, or overwriting, added it |
| `LightOsHistory.HostKeepsAddress` | chef/cookbooks/bcpc/files/default/cinder/lightos.py:1093-1220 | a listed host keeps an address it was added with if and only if the last operation concerning the address neither removes another host with it nor cuts it |
| `LightOsHistory.SharedAddressLost` | chef/cookbooks/bcpc/files/default/cinder/lightos.py:1209-1216 | an input: of two hosts with one address the second is removed, and the first, still listed, has lost its address, though there was room at both adds |
| `LightOsHistory.SeventeenthAddress` | chef/cookbooks/bcpc/files/default/cinder/lightos.py:1113-1115 | an input: with sixteen IPv4 addresses on the list an added one may be left out, and a repeated add write another list |
| `LightOsProtocol.AcceptedSawCurrent` | chef/cookbooks/bcpc/files/default/cinder/lightos.py:334-335 | a PUT accepted on a matching ETag was computed from the volume it replaces |
| `LightOsProtocol.RunKeepsInv` | chef/cookbooks/bcpc/files/default/cinder/lightos.py:1045-1135 | every interleaving of GETs, edits, PUTs, late and repeated deliveries, refusals, lost replies and retries keeps the protocol invariant |
| `LightOsProtocol.EveryRunIsSerial` | chef/cookbooks/bcpc/files/default/cinder/lightos.py:1283-1333 | in every run each accepted PUT edits exactly the volume it replaces, the host list is the accepted operations in commit order, and a call returns True only if a PUT of its own was accepted |
| `LightOsProtocol.EveryRunKeepsLists` | chef/cookbooks/bcpc/files/default/cinder/lightos.py:607-619 | from a volume as created, every run keeps both lists well formed and a host is listed if and only if the last accepted operation concerning it added it |
| `LightOsProtocol.EveryRunKeepsAddresses` | chef/cookbooks/bcpc/files/default/cinder/lightos.py:1093-1220 | from a volume as created, in every run: which addresses are on the IP list, and exactly when a listed host has kept one |
| `LightOsProtocol.CallsFollowPaths` | chef/cookbooks/bcpc/files/default/cinder/lightos.py:1283-1333 | in every run a call's own events are a path of show, send and answer from its start to where it is |
| `LightOsProtocol.CallsCanMove` | chef/cookbooks/bcpc/files/default/cinder/lightos.py:1283-1333 | conversely every step a call may make is an enabled event, if the server shows that volume or the answer is there |
| `LightOsProtocol.WithoutEtagUpdatesAreLost` | chef/cookbooks/bcpc/files/default/cinder/lightos.py:1133-1135 | without ETags no If-Match is sent and an accepted add is lost: a concrete run for any two hosts |
| `LightOsConnection.LightOSConnection.SendCmd` | chef/cookbooks/bcpc/files/default/cinder/lightos.py:284-307 | servers are contacted in cyclic order from the current one, the index stays on the one that answers, a failing call with time for all ends where it began |
| `LightOsConnection.FullCycle` | chef/cookbooks/bcpc/files/default/cinder/lightos.py:297-304 | a full cycle contacts every server exactly once |
| `LightOsDriver.World.WaitForVolumeAvailable` | chef/cookbooks/bcpc/files/default/cinder/lightos.py:543-570 | clock readings, sleeps and GETs up to the first settled reply or the first reading past the end, and the state of the last reply; unbound exactly when no GET was made |
| `LightOsDriver.SettledMeans` | chef/cookbooks/bcpc/files/default/cinder/lightos.py:553-568 | a wait ends at a reply other than 404 that shows one of the five named states, or no state |
| `LightOsDriver.LooksWhileTimeLeft` | chef/cookbooks/bcpc/files/default/cinder/lightos.py:556-570 | a wait looks at the volume if and only if its first reading after the start is in time, and answers "Available" if and only if its last reply shows that |
| `LightOsDriver.World.Attempt` | chef/cookbooks/bcpc/files/default/cinder/lightos.py:1288-1309 | one GET, then exactly one PUT if the reply has what the operation needs, carrying the operation's edit of that volume under its ETag, and otherwise none |
| `LightOsDriver.World.RetryUntil` | chef/cookbooks/bcpc/files/default/cinder/lightos.py:1283-1309 | an attempt after every clock reading in time, with a sleep between two, up to the first accepted PUT or the first late reading; each reply that can be edited leads to exactly one PUT, in order |
| `LightOsDriver.World.UpdateVolumeAcl` | chef/cookbooks/bcpc/files/default/cinder/lightos.py:1283-1333 | every PUT carries the operation; attempts until accepted or late, then the deadline check, then the wait for the state, as marked by clock, sleeps and GETs |
| `LightOsDriver.TriesWhileTimeLeft` | chef/cookbooks/bcpc/files/default/cinder/lightos.py:1285-1292 | an attempt is made if and only if the first reading after the start is in time, and each complete reply of the attempts leads to a PUT |
| `LightOsDriver.UpdateAnswers` | chef/cookbooks/bcpc/files/default/cinder/lightos.py:1311-1333 | it answers True if and only if a PUT was accepted, the end had not passed then and the wait's last reply shows the volume Available; it fails if and only if, in time, the wait made no GET |
| `LightOsDriver.DriverCallIsPath` | chef/cookbooks/bcpc/files/default/cinder/lightos.py:1283-1333 | the GETs and PUTs of one such call are a path of the protocol from the call's start to its return, with its result |
| `LightOsDriver.World.WaitForVolumeAcl` | chef/cookbooks/bcpc/files/default/cinder/lightos.py:1335-1371 | clock readings, sleeps and GETs up to the first reply that shows the membership or has no list, or the first late reading; True if and only if the last reply shows it |
| `LightOsDriver.World.GetLightosUuid` | chef/cookbooks/bcpc/files/default/cinder/lightos.py:620-644 | the UUID of a complete OK reply, otherwise VolumeNotFound |
| `LightOsDriver.World.InitializeConnection` | chef/cookbooks/bcpc/files/default/cinder/lightos.py:1502-1536 | refuses without host name, discovery client or addresses; otherwise the add, then the wait for the list, then the UUID, each exactly if the one before succeeded |
| `LightOsDriver.InitializeExactly` | chef/cookbooks/bcpc/files/default/cinder/lightos.py:1502-1536 | with time left and a complete first reply at least one PUT adds the host; a connection is handed out if and only if an add was accepted in time, the volume then seen Available, the host then seen on the list and the UUID read |
| `LightOsDriver.World.TerminateConnection` | chef/cookbooks/bcpc/files/default/cinder/lightos.py:1538-1572 | raises for a missing host name if and only if not forced; otherwise removes the host, or without a name everyone, and for a removed host waits for the list; failures are passed over |
| `LightOsDriver.TerminateSends` | chef/cookbooks/bcpc/files/default/cinder/lightos.py:1538-1572 | with time left and a complete first reply at least one PUT removes the host, or when forced everyone; after success the list is looked at |
| `LightOsConnector.LightOSConnector.DscConnectVolume` | chef/cookbooks/bcpc/files/default/cinder/lightos_connector.py:143-170 | writes the discovery file if there is none; an existing one is not rewritten |
| `LightOsConnector.LightOSConnector.MonitorDb` | chef/cookbooks/bcpc/files/default/cinder/lightos_connector.py:180-182 | every entry gets its file unless one cannot be moved; existing files stay |
| `LightOsConnector.LightOSConnector.MonitorMessageQueue` | chef/cookbooks/bcpc/files/default/cinder/lightos_connector.py:184-201 | empties the queue and leaves the database equal to the connection map |
| `LightOsConnector.LightOSConnector.DrainThenRestore` | chef/cookbooks/bcpc/files/default/cinder/lightos_connector.py:203-221 | drain, then one pass: a discovery file for every connected volume |
| `LightOsConnector.LightOSConnector.ConnectVolume` | chef/cookbooks/bcpc/files/default/cinder/lightos_connector.py:297-330 | adds to the connection map exactly on success, and without a device leaves the file if and only if its deletion fails |
| `LightOsConnector.LightOSConnector.DisconnectVolume` | chef/cookbooks/bcpc/files/default/cinder/lightos_connector.py:332-372 | removes from the connection map whatever fails afterwards |
| `LightOsConnector.DrainIsLastConcern` | chef/cookbooks/bcpc/files/default/cinder/lightos_connector.py:184-201 | a volume is in the map if and only if its last message added it, with that message's connection |
| `LightOsConnector.OnlyPutsCount` | chef/cookbooks/bcpc/files/default/cinder/lightos_connector.py:184-221 | over every interleaving only the messages put, in order, determine the connection map and a drained database |
| `LightOsConnector.DrainedDatabase` | chef/cookbooks/bcpc/files/default/cinder/lightos_connector.py:326-328 | over a whole run a drained database holds a volume if and only if the last message put for it added it |
| `LightOsConnector.PassRestoresFiles` | chef/cookbooks/bcpc/files/default/cinder/lightos_connector.py:180-182 | an undisturbed pass leaves a file for every entry, whatever connects run beside it |
| `LightOsConnector.DrainThenPass` | chef/cookbooks/bcpc/files/default/cinder/lightos_connector.py:203-221 | after any run that ends drained, a full undisturbed pass leaves a file for every connected volume |
| `Downtime.DowntimeSteps` | chef/cookbooks/bcpc/files/default/nova/migration.py:716-753 | yields steps + 1 pairs, each the closed form floor(downtime * (steps + i * (steps - 1)) / steps^2) |
| `Downtime.RampValueIsLinear` | chef/cookbooks/bcpc/files/default/nova/migration.py:747-753 | the linear formula in exact arithmetic, floored, is that closed form |
| `Downtime.RampShape` | chef/cookbooks/bcpc/files/default/nova/migration.py:716-753 | both coordinates never decrease, from floor(downtime / steps) at 0 to exactly downtime, never above it |
| `Downtime.RampDelayGrows` | chef/cookbooks/bcpc/files/default/nova/migration.py:747 | the delay between steps is the configured one per GB, rounded down, and grows with the data |
| `Downtime.RampDelayWhole` | chef/cookbooks/bcpc/files/default/nova/migration.py:747 | for whole GB it is exactly that multiple |
| `Downtime.DocumentedProgression` | chef/cookbooks/bcpc/files/default/nova/migration.py:722-735 | the documented example: 40 ms, and 36 ms more every 90 seconds up to 400 ms |
| `Downtime.UpdateDowntime` | chef/cookbooks/bcpc/files/default/nova/migration.py:540-592 | returns the value of the last step whose marker has passed, the old value if none has; sets it on the guest when new, ignores a failure |
| `Downtime.RampAt` | chef/cookbooks/bcpc/files/default/nova/migration.py:540-592 | on a ramp, elapsed in (delay * i, delay * (i + 1)] gives the i-th closed-form value |
| `Downtime.RampPast` | chef/cookbooks/bcpc/files/default/nova/migration.py:540-592 | elapsed past the last marker gives exactly the configured downtime, elapsed up to 0 none |
| `Downtime.DowntimeNeverFalls` | chef/cookbooks/bcpc/files/default/nova/migration.py:540-592 | over any run with nondecreasing time the value depends on the last reading alone, never falls and never exceeds the configured downtime |
| `Downtime.GuestLagsFailedChange` | chef/cookbooks/bcpc/files/default/nova/migration.py:578-592 | whatever sets fail, the guest has the returned value if and only if the last change of it went through; it never has more, and what it has never falls |
| `Downtime.FailedChangeNotRetried` | chef/cookbooks/bcpc/files/default/nova/migration.py:578-592 | an input: a failed set, then an update in the same step; the guest never gets the value returned twice |
| `LiveMigration.TriggerPostcopySwitch` | chef/cookbooks/bcpc/files/default/nova/migration.py:621-634 | the status becomes post-copy exactly when libvirt succeeds |
| `LiveMigration.RunTasksOn` | chef/cookbooks/bcpc/files/default/nova/migration.py:637-678 | drains the task queue with the specified effects on guest, migration and recovery queue |
| `LiveMigration.RunRecoverTasksOn` | chef/cookbooks/bcpc/files/default/nova/migration.py:681-713 | drains the recovery queue with the specified effects |
| `LiveMigration.UnknownTasksIgnored` | chef/cookbooks/bcpc/files/default/nova/migration.py:676-678 | tasks other than "force-complete" change nothing |
| `LiveMigration.ForcedCompletion` | chef/cookbooks/bcpc/files/default/nova/migration.py:661-671 | with post-copy enabled one switch however many tasks ask; otherwise each task pauses and queues its "unpause" |
| `LiveMigration.SwitchesUnderFailures` | chef/cookbooks/bcpc/files/default/nova/migration.py:655-671 | under any failures the switch is tried up to the first success, and the status is post-copy if and only if one succeeds |
| `LiveMigration.OnlySwitches` | chef/cookbooks/bcpc/files/default/nova/migration.py:655-671 | with post-copy enabled nothing else is called, and guest state and recovery queue stay |
| `LiveMigration.PausesUnderFailures` | chef/cookbooks/bcpc/files/default/nova/migration.py:669-674 | otherwise each forced completion makes one attempt to pause, and the guest is paused if and only if it was or one succeeds |
| `LiveMigration.RunKeepsInv` | chef/cookbooks/bcpc/files/default/nova/migration.py:637-678 | in every run, whatever calls fail, there are as many "unpause" tasks as successful pauses, and only the configured mode is used |
| `LiveMigration.PausedMeansUnpauseQueued` | chef/cookbooks/bcpc/files/default/nova/migration.py:669-674 | a guest is paused only while an "unpause" is queued, and never with post-copy enabled |
| `LiveMigration.PostCopyIsFinal` | chef/cookbooks/bcpc/files/default/nova/migration.py:508-537 | from post-copy on no request and no amount of time makes any libvirt call |
| `LiveMigration.IterationTimesOut` | chef/cookbooks/bcpc/files/default/nova/driver_22.04.py:10186-10218 | an iteration aborts the job, or queues "force-complete" if so configured, if and only if a timeout is set, elapsed is past it and the migration is not in post-copy after its tasks |
| `LiveMigration.AbortsExactly` | chef/cookbooks/bcpc/files/default/nova/driver_22.04.py:10203-10218 | a run aborts once for each such iteration, and never if it is configured to force completion |
| `LiveMigration.WithinTimeoutUndisturbed` | chef/cookbooks/bcpc/files/default/nova/migration.py:526-537 | while all readings are within the timeout, or none is set, the run is the one that only takes requests and runs tasks |
| `LiveMigration.RecoveryResumes` | chef/cookbooks/bcpc/files/default/nova/migration.py:681-713 | recovery empties the queue and never pauses; it leaves the guest paused if and only if it was and every queued "unpause" failed to read its state or to resume it, one failure for each |
| `LiveMigration.UnreadableGuestStaysPaused` | chef/cookbooks/bcpc/files/default/nova/migration.py:697-708 | an input: a paused guest whose power state cannot be read stays paused, with nothing queued |
| `LiveMigration.RecoveredGuestRuns` | chef/cookbooks/bcpc/files/default/nova/migration.py:681-713 | recovery after any run leaves the guest paused if and only if the run did and as many attempts fail as the run paused it; without failures never |
| `Addressing.OrIsSum` | chef/cookbooks/bcpc/libraries/utils.rb:359 | OR of a multiple of 2^k and a number below 2^k is their sum, for every k |
| `Addressing.BitsAreParts` | chef/cookbooks/bcpc/libraries/utils.rb:355-357 | the shifts pick out the host id and the network address |
| `Addressing.GenerateIpAddress` | chef/cookbooks/bcpc/libraries/utils.rb:351-360 | the result is the target network's address plus the source's host id |
| `Addressing.GeneratedAddress` | chef/cookbooks/bcpc/libraries/utils.rb:351-360 | it lies in the target network and keeps the host id |
| `Addressing.MoveAndBack` | chef/cookbooks/bcpc/libraries/utils.rb:351-360 | moving into another network of that prefix and back is the identity |
| `Addressing.MoveIsInjective` | chef/cookbooks/bcpc/libraries/utils.rb:351-360 | different hosts stay different |
| `ReverseZones.CidrToReverseZones` | chef/cookbooks/bcpc/libraries/utils.rb:363-404 | the zones of every CIDR, and exactly when there is an error |
| `ReverseZones.NameMatchesZone` | chef/cookbooks/bcpc/libraries/utils.rb:363-404 | any address falls under a zone's name if and only if it lies in that zone, shortcuts included |
| `ReverseZones.ZonesDisjoint` | chef/cookbooks/bcpc/libraries/utils.rb:393-401 | zones are pairwise disjoint and have distinct names |
| `ReverseZones.ZonesCoverExactly` | chef/cookbooks/bcpc/libraries/utils.rb:386-401 | the zones hold exactly the CIDR's addresses if and only if its address lies in its first /24 (always for /8 and /16) |
| `ReverseZones.UnalignedZones` | chef/cookbooks/bcpc/libraries/utils.rb:386-401 | an input: the zones of 10.0.1.0/23 hold 10.0.2.0 and miss 10.0.0.0 |
| `ReverseZones.AlignedNeverFails` | chef/cookbooks/bcpc/libraries/utils.rb:395-396 | such a CIDR never runs past the address space |
| `InstanceMetadata.Instance.ResetMetadataTracking` | chef/cookbooks/bcpc/files/default/nova/instance.py:256-262 | the tracked originals become the loaded maps |
| `InstanceMetadata.ResetExactly` | chef/cookbooks/bcpc/files/default/nova/instance.py:256-279 | a reset makes the loaded map, or an empty one, the original of exactly the fields named and unmarks them |
| `InstanceMetadata.Instance.ObjWhatChanged` | chef/cookbooks/bcpc/files/default/nova/instance.py:282-289 | assigned fields, and metadata fields that differ from their originals |
| `InstanceMetadata.ReportedExactly` | chef/cookbooks/bcpc/files/default/nova/instance.py:282-289 | a field is reported if and only if it is marked, or is a loaded metadata field that differs from its original |
| `InstanceMetadata.Instance.DeleteMetadataKey` | chef/cookbooks/bcpc/files/default/nova/instance.py:1197-1212 | row, object and original after the optimized delete, KeyError included |
| `InstanceMetadata.Instance.DeleteSystemMetadataKey` | chef/cookbooks/bcpc/files/default/nova/instance.py:1214-1229 | the same for system metadata |
| `InstanceMetadata.DeleteSucceedsIfHeld` | chef/cookbooks/bcpc/files/default/nova/instance.py:1198-1229 | the row always goes; the delete succeeds if and only if the object holds the key, never for a field not read before |
| `InstanceMetadata.Instance.SaveChanges` | chef/cookbooks/bcpc/files/default/nova/instance.py:780-851 | rows and object after a save, an empty one included |
| `InstanceMetadata.StepFaithfulIff` | chef/cookbooks/bcpc/files/default/nova/instance.py:1198-1229 | an operation keeps the originals equal to the rows if and only if it is no delete of a key dropped from the object but still tracked, and no assignment of an unread field |
| `InstanceMetadata.RunFaithful` | chef/cookbooks/bcpc/files/default/nova/instance.py:256-289 | over any sequence of such operations the tracked original is the stored map |
| `InstanceMetadata.StepAccountedIff` | chef/cookbooks/bcpc/files/default/nova/instance.py:1197-1229 | an operation keeps every loaded field's original equal to the rows, or the field marked, if and only if it is no such delete |
| `InstanceMetadata.UnsavedIsReported` | chef/cookbooks/bcpc/files/default/nova/instance.py:282-289 | over any sequence without a delete of a key that an unmarked field has dropped but still tracks, every difference from the rows is reported |
| `InstanceMetadata.AccountedIffKeepsReporting` | chef/cookbooks/bcpc/files/default/nova/instance.py:282-289 | that condition on a state is exact: it holds if and only if every difference is reported whatever keys are set and removed from there on |
| `InstanceMetadata.DropDeleteSetGoesUnreported` | chef/cookbooks/bcpc/files/default/nova/instance.py:1206-1212 | a run in which reporting fails, for any key and value: drop the key, delete it at once, set it again |
| `InstanceMetadata.SaveLeavesClean` | chef/cookbooks/bcpc/files/default/nova/instance.py:839-851 | after a save nothing is pending or reported; what was loaded is written, system_metadata is loaded as well if anything was saved, and without changes nothing happens |
| `InstanceMetadata.LoadReadsOnce` | chef/cookbooks/bcpc/files/default/nova/instance.py:1091-1150 | a field is read when first needed, and is then clean; a loaded one is not read again |
| `InstanceMetadata.RefreshRereads` | chef/cookbooks/bcpc/files/default/nova/instance.py:854-880 | a refresh re-reads what is loaded, drops pending edits and leaves the rows |
| `InstanceMetadata.DeleteKeyKeepsPending` | chef/cookbooks/bcpc/files/default/nova/instance.py:1198-1229 | a delete of a held key loses no pending edit of another key, leaves a clean field clean and the other field alone |
| `InstanceMetadata.DeleteOfDroppedKeyGoesStale` | chef/cookbooks/bcpc/files/default/nova/instance.py:1206-1209 | deleting a key the object no longer holds leaves the original stale: a concrete state |
| `ExpectedCols.ExpectedCols` | chef/cookbooks/bcpc/files/default/nova/instance.py:77-101 | the list returned is keep-first deduplication of the columns, whatever order the set is listed in |
| `ExpectedCols.SortIsKeepFirst` | chef/cookbooks/bcpc/files/default/nova/instance.py:96-101 | sorting any listing of the set by first index is keep-first deduplication |
| `ExpectedCols.KeepFirstInOrder` | chef/cookbooks/bcpc/files/default/nova/instance.py:99-101 | the deduplicated list is in order of first occurrence |
| `ExpectedCols.OrderDetermines` | chef/cookbooks/bcpc/files/default/nova/instance.py:99-101 | there is only one such list |
| `ExpectedCols.ColumnsListed` | chef/cookbooks/bcpc/files/default/nova/instance.py:86-95 | which columns are listed |
| `ExpectedCols.ExtraListed` | chef/cookbooks/bcpc/files/default/nova/instance.py:92-93 | "extra" is listed if and only if some extra field is requested |
| `ExpectedCols.ExpectedColumns` | chef/cookbooks/bcpc/files/default/nova/instance.py:77-101 | the list in full: joined attributes as first requested, "extra", the extra columns in table order; the second filter removes nothing |

## Left out

- QueryMeaning.ScopedQueryShows: and the lemmas that rest on it are stated for hooks without a plain `filter` part, like the external-network hook; PlainFiltersNarrow says what such a part does to any result.
- ModelQuery.Registry.GetCollectionQuery: sorting and paging are not modelled, because they select nothing beyond what the query returns but a page.
- ExternalNetRuns.RunKeepsInv: takes operations one after the other, because the callbacks hold no lock and the property fails when they interleave; DeletionOnStaleValidation and AttachOvertakesDeletion say when and how.
- ModelQuery.Registry.QueryWithHooks: query hooks, lazy loading, a `field` other than the id and unsupported fields are not modelled, because the external-network hook uses none of them.
- ModelQuery.Registry.ApplyFilters: association proxies, `FilterObj` values and relationship columns are not modelled.
- InstanceMetadata.Instance.SaveChanges: object fields, the extra table and a row update that raises are not modelled; a lazy load sets only the field asked for.
- LightOsDriver.World.InitializeConnection: of the connection properties only the UUID is read; the cluster's targets and their addresses are not modelled.
- LightOsDriver.World.UpdateVolumeAcl: the exception of a call that no API server answers ends the call; the protocol has it as GiveUp.
- ReverseZones.CidrToReverseZones: a number beyond 32 bits given to the address library is taken to be an error.
- Gateway attachment, router life cycle and default-network selection are environment steps with explicit guards: a gateway needs a covering entry and a free port id, a default network a wildcard entry. Every gateway port belongs to one router. A policy is updated and deleted by an unscoped caller or the project that made it, and a network updated by whoever sees it.
- The object layer that counts, finds and deletes entries and routers is not part of this model. Its queries are taken to go through the query builder, so that a caller limited to its project finds only its rows; `get_projects`, `check_routers_not_owned_by_projects` and the external rows are taken to be read in full. A caller says for itself whether its network query is scoped and its look-ups limited, so the theorems cover every combination; in Neutron both hold for all but admins and services.
- What the callback manager does with an error from AFTER_DELETE: an outcome here is the handler's own.
- Transactions: network create and update roll back on error; the policy callbacks keep what they did before an error.
- The condition entering the network filter hook is one predicate; whether a clause object can be iterated is library behaviour.
- The server changes its ETag to one never used before on every accepted PUT; `use_ip_acl` is on throughout.
- Deadlines: `SendCmd` takes how often its deadline check succeeds; the driver loops use a clock that never goes back and advances with every sleep.
- Floating-point rounding in the downtime steps: arithmetic is exact.
- Loading an instance from its primitive form, `obj_clone`, notifications.
- `get_collection` and `get_values`, which list a query's rows.
- `extend_volume`, snapshots and volume creation in the LightOS driver, beyond the lists a new volume gets.
- Discovery files while a disconnect runs beside a monitor pass: the code does not order these steps.
- The XML editing in `migration.py`; HTTP, JSON, logging.
- Recipes, attributes, playbooks, templates, routes, policies and schemas: configuration and look-ups.
