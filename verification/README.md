# A verified model of the dev-local control loop

The program watches Docker containers, derives from them which host names should be proxied where, and
keeps two things in step with that: the routes and the TLS policy of a Caddy server, changed request by
request over its admin API, and a marked block in the hosts file. This project models that loop and
proves what it keeps and what it reaches, for every input, every run and every way in which requests can fail.

Code that changes things step by step is modelled by classes and methods with loops (`AdminAPI`,
`HostsFile`, `Generator`, `Reloader`, `Controller` and the methods around them). Each method is proved to
compute a function of its inputs and the old state. The theorems are about those functions, and each is
tied to something that does not mention the method: an aimed-at list, a parse of the file, a comprehension,
an inverse, or an invariant of all runs.

## How the pieces are modelled

- **The admin server** (`AdminServer`) is two ordered lists of objects with optional ids, each of which may
  not exist yet. A request either arrives and is answered, or is turned down with an error status, or is
  lost before or after it took effect, with a transient or a permanent error. A script of such faults is
  part of the state, so "for all scripts" is "whatever the network does". All attempts are logged.
  A server may answer the read of a missing node with 404 or with 200 and a null body (`lenient`).
- **A reconcile** (`AdminClient`, `AdminApi`) makes sure the nodes exist, then runs a plan, the difference
  between what is remembered and what is wanted, up to the first error. The order in which the delete loops
  meet their ids is arbitrary. The aimed-at lists are defined without any of this (`FinalRoutes`: the old list
  without the removed ids, with changed objects in place, then the added ones in ascending order of id).
- **Mirrors / InSync**: our objects on the server are exactly those of a map, each once; both lists mirror
  what is remembered and our policy, if there is one, comes first.
- **Applies against registry changes** (`Apply`): a state machine whose steps are a registry change at any
  moment and the single steps of an apply: the try-lock, reading targets, status and containers, the
  reconcile, the index page, storing the fingerprint. The fingerprint stands for what is hashed.
- **The hosts file** (`Hosts`) is any string. The scanners with their in-block flag are related to a parse of
  the file into plain lines and managed blocks (`HostsProofs`). Equality "up to the end of the file" is
  equality after trimming newlines and carriage returns there, `Eol`.
- **The registry** (`Registry`) is a map of records under a clock, and probing is an arbitrary oracle. Go's map
  iteration is an arbitrary choice of the next key.
- **The debounce loop** (`Debounce`) receives an arbitrary sequence of inputs with times, polls among them, and logs when it accepts an
  event, refreshes and requests an apply. A request is the step `TryBegin` of `Apply`, where the try-lock may drop it;
  `Requests` says what becomes of it.

## Where the code falls short of what one would expect

The lemmas named prove each point. Where one says "exactly when", the condition holds if and only if the code meets
the expectation, on all inputs.

- A POST that took effect but whose reply was lost leads to a failed reconcile, and rerunning it posts the same
  route again: the rerun repairs everything exactly when no POST of the failed attempt took effect
  (`RerunRepairs`, `QuietRerun`, `LostPostExample`). With other wishes, a route is set right exactly when the second
  reconcile deletes or patches its id or the failed attempt had not changed it (`OtherWishesHeal`), and the policy
  exactly when it is deleted, or patched or prepended without its read turned down, or found as wished
  (`OtherWishesHealPolicy`); so after a lost DELETE, wishes as remembered leave no policy.
- A route that is on the server too often stays so: a removal takes one copy, a change replaces the first only. Over
  runs without faults it is right exactly when there was none too many at the start (`SurplusLasts`), and once it is
  not wished any more the client has forgotten it (`LostPostExample`).
- If the read of an existing policy list is turned down, the PUT that follows meets 409, which counts as success.
  The client then remembers a policy that the server lacks (`SuccessRefines`, `MissedPolicyExample`).
- After a failed reconcile the old fingerprint stays. It can still be trusted exactly when neither list was changed
  (`FailedReconcile`). After a good reconcile whose index page could not be written, it can be trusted exactly
  when it is of targets that build the config just applied (`FailedWrite`). Otherwise, going back to the earlier state
  is taken for "no change" (`UnwrittenThenSkipped`, `FailedThenSkipped`, and their examples).
- An apply requested while another is in flight is dropped; the program's `README.md:190` says so of a disabled poll.
  If the registry does not change any more, then until another apply begins the server ends in step with it exactly
  when, at the request, no apply was in flight, or one that had not read its targets, or one with the same config
  (`RequestServedIff`, `EventReachesServer`, `DroppedRequestExample`).
- A retried DELETE is harmless exactly when its id occurs at most once on the server (`DeleteRepeatable`).
- Hosts that differ by a dot and a dash share a route id: every host is served exactly when no two share one
  (`AllServedIff`, `ClashExample`).
- The hashed bytes read back as the targets exactly when no string holds NUL and no address begins with a newline;
  such a map shares its bytes with exactly those that read as it does (`ReadsBackIff`, `HashedAlikeIff`). So two
  registries with different targets can have the same bytes: `NulCollision` from what a refresh may find, and
  `NewlineCollision` from container names that Docker refuses.
- A hosts file with an END marker but no BEGIN gets its block only on the second sync; it is the only such kind of
  file (`SyncConverges`, `LaterSyncWins`).
- A line of the user's is lost exactly when a BEGIN stands before it that no END closes before it; after a BEGIN
  that is never closed everything is lost (`LostIff`, `UnclosedLoses`).
- A stopped container dropped by the cleanup returns exactly when Docker still lists it and it is eligible, and then
  with a fresh stop time (`CleanupForgets`).
- A closed error channel yields no error, whose text is then asked for: the program crashes exactly when the loop finds
  the channel closed (`CrashedIff`, `discovery/discovery.go:134-137`). That the Docker client may close it without
  sending an error first is an assumption about that client.

## Model

| member | source | states |
|---|---|---|
| AdminServer.RetryEffects | admin.go:69-95 | For every request: attempts are made until one is answered or lost for good, or is the last of three, and one only for a POST; all before the last were lost by transient errors; the server is as after as many deliveries as attempts took effect, and the reply is that of the last attempt |
| AdminServer.RequestEffects | admin.go:80-91 | Three attempts at most are made |
| AdminApi.AdminAPI.Request | admin.go:69-95 | Up to three attempts, none after a lost POST or a permanent error |
| PolicyProgress.EnsureOp | admin.go:236-257 | Under any faults making sure of a node changes nothing or puts an empty one where there is none, and success, on a server that answers 404 for missing nodes, means that it is there |
| AdminApi.AdminAPI.PrependTLSPolicy | admin.go:259-307 | The policy goes to the head of the list read, minus earlier copies of it, with each of the error paths |
| RouteProgress.UpdateOp | admin.go:327-339 | Under any faults a changed route that is there is replaced in place or stays, and success means it is replaced |
| Healing.UpdateMissing | admin.go:332-335 | A changed route that is not there is added by the POST that follows |
| Healing.UpdateServed | admin.go:327-339 | So success means: the first copy replaced, or one added if there was none, and no other id touched |
| PolicyHealing.PatchMissing | admin.go:352-364 | A changed policy that is not there is prepended, unless the read of the list was turned down |
| AdminApi.AdminAPI.DeleteAll | admin.go:320-324 | The delete loop meets every removed id once in some order and stops at the first error |
| AdminApi.ComputePatch | admin.go:374-393 | Removed, updated and added are the three parts of the difference of the maps |
| Plans.PlanExactly | admin.go:319-342 | The plan for the routes has exactly one operation for each id that differs between the two maps, of the kind the difference calls for and carrying the wish, and none for any other id |
| Plans.PortsFirst | admin.go:210-222 | Before the server node is put its ports are asked for |
| Plans.Verdicts | admin.go:140-149 | Which statuses are taken for success: any of the two hundreds for a POST, 409 too for a PUT that creates, and 200, 204 and 404 for a DELETE |
| Text.SortedKeys | admin.go:395-402 | The keys come out in ascending order whatever the iteration order was |
| Text.LeqIff | admin.go:395-402 | Ascending means: a string that begins another comes first, else the one with the smaller character where they first differ |
| AdminApi.AdminAPI.ReconcileDevlocal | admin.go:309-372 | The object's reconcile is the plan for what it remembers, and the memory is replaced only if all of it succeeded |
| PolicyProgress.PrependOp | admin.go:259-307 | Under any faults a prepend leaves the policies alone or puts the new one at the head with the rest kept in order; if it reports success without that, the read was refused |
| PolicyProgress.PrependRefused | admin.go:259-307 | A prepend that reports success after its read of an existing list was turned down has changed nothing |
| PolicyProgress.EnsureServerOp | admin.go:209-234 | Making sure of the nodes keeps existing lists under any faults, creates missing ones empty and posts nothing; on success both exist if the server answers 404 for missing nodes |
| ReconcileProofs.RoutePlanProgress | admin.go:319-342 | From any list half-way through its deletions and replacements the route part leads, under any faults, to such a list again, and to the end if it succeeds |
| ReconcileProofs.PolicyPlanProgress | admin.go:344-367 | The policy part moves the list to the aimed-at one or leaves it, and reports success without moving it only if the read was refused |
| ReconcileProofs.FinalMirrors | admin.go:319-342 | The aimed-at route list holds our desired routes, each once, and no other of ours |
| ReconcileProofs.FinalPoliciesMirror | admin.go:344-367 | The aimed-at policy list holds our desired policy at the head and no other of ours |
| ReconcileTheorems.PlanFrom | admin.go:319-367 | From any point part-way and under any faults the plan ends at a point part-way, at the end if it succeeds, and policies move only after the routes are done |
| ReconcileTheorems.ReconcileFrom | admin.go:309-372 | The same for a whole reconcile, the making of nodes included |
| ReconcileTheorems.SuccessRefines | admin.go:309-372 | A successful reconcile from a server in step ends at the aimed-at lists and in step with the new memory, if and only if no read of an existing policy list was refused |
| ReconcileTheorems.OrderIrrelevant | admin.go:320-324 | The order of deletions does not show in the result |
| ReconcileTheorems.RerunRepairs | admin.go:309-372 | After a failed attempt a successful rerun ends in step if and only if no POST of the failed one took effect, and then as if the failed one had never happened |
| ReconcileTheorems.RerunDuplicates | admin.go:338-342 | Whenever a POST of the failed attempt took effect, a successful rerun ends out of step |
| ReconcileTheorems.FailureShows | admin.go:309-372 | A failed reconcile leaves the server in step with what is remembered if and only if it changed neither list |
| ReconcileSafety.HarmlessKeeps | admin.go:309-372 | A single delivered request about our objects leaves the user's objects alone and our policy at the head |
| ReconcileSafety.PrependKeeps | admin.go:259-307 | So does a prepend under any faults |
| ReconcileSafety.ReconcileKeeps | admin.go:309-372 | So does a reconcile from any server state, whatever the client remembers, under any faults |
| ReconcileSafety.RunKeeps | admin.go:309-372 | On every run of reconciles with arbitrary faults the user's routes and policies keep content and order, and at most one policy is ours, at the head |
| ReconcileSafety.RunInSync | admin.go:309-372 | On every run of successful reconciles with changing targets the server stays in step with the last wishes |
| Delivery.DeleteRepeatable | admin.go:140-149 | Repeating a DELETE changes nothing if and only if its id occurs at most once |
| Delivery.ArriveOnce | admin.go:80-91 | Any number of deliveries of a retried request leaves the server and the verdict as one does |
| Delivery.AtLeastOnce | admin.go:69-95 | An accepted answer after any number of lost ones means the effect of exactly one delivery |
| Delivery.CleanRoutePlan | admin.go:319-342 | Without faults the route part makes exactly one request per removed, changed or added route |
| Delivery.QuietReconcile | admin.go:309-372 | Without faults a reconcile succeeds, whatever lists it finds |
| Delivery.QuietNetworkArrives | admin.go:309-372 | Without faults a reconcile from a server in step succeeds and arrives |
| Delivery.QuietRerun | admin.go:309-372 | After any failed attempt, whatever befell it, a rerun without faults reports success, and ends in step if and only if no POST of the failed one took effect |
| Examples.MissedPolicyExample | admin.go:259-307 | One host, its config as built, and one refused read of the policies after the node reads and the POST: a reported success without the policy |
| Examples.LostPostExample | admin.go:80-84 | One host and one lost reply to the POST after the node reads: a failure, a rerun with the route twice, and after the container stopped a route that nobody remembers |
| Config.BuildDevlocalConfig | builder.go:42-82 | The loop over the sorted hosts builds the route map and the policy of the targets |
| Config.BuildRoutes | builder.go:61-71 | The route map holds, for each id in use, the route of the last host with that id, to its sorted addresses |
| Config.BuildWellFormed | builder.go:42-82 | Every object is stored under its own id, routes under route ids and the policy under its one id |
| Config.ServedExactly | builder.go:61-71 | On a server in step a host has one route of ours, to exactly its sorted addresses, if it is the last with its id, and none otherwise |
| Config.RouteIdsAgreeIff | builder.go:38-40 | Two hosts share an id if and only if they have one length and differ at most where both have a dot or a dash; a host without dots has the id `devlocal-route-` and itself |
| Config.AllServedIff | builder.go:38-40 | All hosts are served if and only if no two share an id, that is, no two are alike in that way |
| Config.DashlessServed | builder.go:61-71 | Hosts without a dash never clash, so each of them is served |
| Config.PolicyExactly | builder.go:160-177 | On a server in step the first policy covers exactly the sorted hosts, and there is none of ours without hosts |
| Config.BuildTellsTargets | builder.go:42-82 | Without clashes different targets give different configs |
| Config.ClashExample | builder.go:38-40 | `a.b` and `a-b` share an id and `a.b` is the one kept |
| Fingerprint.FingerprintDomains | caddy.go:245-263 | The loops feed the hash the encoding of the domains in order, each with its addresses in order |
| Fingerprint.DecodeEncode | caddy.go:245-263 | That encoding can be read back |
| Fingerprint.BytesDetermine | caddy.go:245-263 | The bytes of two target maps agree if and only if the domains and the multisets of addresses do |
| Fingerprint.ReadsBackIff | caddy.go:245-263 | The bytes read back as the targets if and only if no string holds NUL and no address begins with a newline |
| Fingerprint.HashedAlikeIff | caddy.go:245-263 | A target map that reads back shares its bytes with exactly those maps, mistakable or not, whose bytes read as it does |
| Collisions.NulCollision | caddy.go:245-263 | The first refreshes of two containers that differ in their label, one with a NUL in a domain, give different targets with the same bytes |
| Collisions.NewlineCollision | caddy.go:245-263 | Two registries, one with a container whose name begins with a newline, give different targets with the same bytes; Docker refuses such names |
| Clean.CleanView | generator/generator.go:375-412 | A registry without NUL in names, labels and gateways and without a host that begins with a newline gives targets that cannot be mistaken |
| Clean.RunKeepsClean | generator/generator.go:114-173 | On every run in which Docker lists containers of that kind, registry and targets are of that kind |
| Fingerprint.SameTargetsSameConfig | builder.go:42-82 | Targets that are hashed alike build the same config |
| Apply.TakeOk | caddy.go:192-224 | Every step of an apply or of the registry keeps the invariant that ties the stored fingerprint, the memory and the server together |
| Apply.RunOk | caddy.go:192-224 | So does every interleaving of them |
| Apply.SkipIsSound | caddy.go:197-201 | Whenever the stored fingerprint agrees with one computed from any targets, with containers and error read at other moments, the server holds the config of those targets |
| Apply.CurrentApplyIsCurrent | cmd.go:152-172 | An apply that goes well and began after the last registry change leaves the server in step with the current targets, skipped or not |
| Apply.CurrentApplyServes | cmd.go:152-172 | ... and each domain of the registry has its one route to its addresses unless a later one shares its id |
| ApplyRuns.QuietApply | cmd.go:152-172 | Without faults an apply runs to its end with the server in step with the current targets and the current fingerprint stored, and sends nothing if that one was stored already |
| ApplyRuns.SecondApplyIsSkipped | caddy.go:197-201 | The apply after that one, without a change in between, leaves everything as it is |
| Requests.RequestServedIff | cmd.go:152-158 | If an apply is requested after the last change, refreshes that find nothing new aside, and the apply then in flight comes to its end, the server is in step with the registry if and only if none was in flight at the request, or one that had not read its targets, or one with the current config |
| Requests.LateRequest | cmd.go:154-157 | From every idle state: if the registry changes after the targets were read and the config differs, the request for it is dropped and the apply, skipped or not, ends out of step without any fault |
| Requests.DroppedRequestExample | cmd.go:154-157 | The same in the state after a start: two containers start while an apply that read an empty registry is under way |
| Requests.EventReachesServer | discovery/discovery.go:140-145 | Every event accepted before a tick leads to a refresh and a later request, and if the registry does not change afterwards the server ends in step if and only if that request came in time |
| Healing.SuccessHeals | admin.go:319-342 | Whatever a reconcile that succeeds found, ids that occur several times included, and under any faults: a removal takes as many copies as deletes took effect, one if nothing was lost, a change replaces the first copy or adds one, an addition adds one, and any other id is as before |
| Healing.QuietHealsIff | admin.go:319-342 | Without faults an id is right afterwards if and only if it was deleted or patched and occurred at most once, or was neither and was right before |
| QuietRuns.StepKeepsSurplus | admin.go:319-342 | Without faults what is there beyond the remembered stays, except that a missing route is made up for when it is removed or changed |
| QuietRuns.SurplusLasts | admin.go:309-372 | On every run without faults a route that was right, or there too often, is right if and only if there was none too many at the start |
| Healing.OtherWishesHeal | admin.go:309-372 | After a failed attempt, a reconcile with any other wishes that succeeds sets a route right if and only if it deletes or patches its id or the failed attempt had not changed it |
| PolicyHealing.SuccessServesPolicy | admin.go:344-367 | Whatever a reconcile that succeeds found, and under any faults: the policy list it leaves |
| PolicyHealing.OtherWishesHealPolicy | admin.go:309-372 | After a failed attempt, a reconcile with any other wishes that succeeds sets the policy right if and only if it deletes it, or patches or prepends it without its read turned down, or the policy found is the one wished |
| ApplyFailures.InSyncDecides | admin.go:309-372 | A server is in step with one memory only |
| ApplyFailures.FailedReconcile | caddy.go:208-214 | After a failed reconcile the stored fingerprint can be trusted if and only if neither list was changed |
| ApplyFailures.FailedWrite | caddy.go:216-221 | After an unwritten index page it can be trusted if and only if it is of targets that build the config just applied |
| ApplyFailures.FailedWriteSameTargets | caddy.go:216-221 | ... that is, as long as no hosts clash, if and only if it is of the same targets |
| ApplyFailures.OneConfigOneHash | caddy.go:226-243 | Targets without clashes whose config the same server holds are hashed alike |
| ApplyFailures.IndexPosted | caddy.go:182-189 | On a server with nothing of ours the first apply puts the index route behind the user's routes and is in step with an empty memory |
| ApplyFailures.StartsOk | caddy.go:29-89 | A first apply that goes well establishes the invariant of all later runs and keeps the user's objects |
| Starts.QuietStart | caddy.go:29-89 | Without faults, on a server as the user's own config leaves it, the start succeeds and the program is in such a state, with the current fingerprint stored |
| WrongSkips.UnwrittenThenSkipped | caddy.go:192-224 | From every idle state with the current fingerprint: another registry is applied but the index page not written, the registry goes back, the apply is skipped, and the server is out of step |
| WrongSkips.FailedThenSkipped | caddy.go:192-224 | The same when the reconcile fails after it has changed a list |
| WrongSkips.UnwrittenExample | caddy.go:216-221 | The first in the state after a start, with two containers that start and stop |
| WrongSkips.FailedExample | caddy.go:208-214 | The second in that state, with the reply to the first POST lost |
| Reload.Reloader.ReloadCaddyConfig | caddy.go:192-224 | The whole reload is the steps of the state machine in a row |
| Reload.Reloader.ApplyDevlocal | cmd.go:152-179 | ... and then the hosts file is synced with the current domains, whatever became of the reload |
| Hosts.BuildBlock | hosts/hosts.go:97-119 | The builder writes exactly the lines of the block |
| HostsMapping.EntryMaps | hosts/hosts.go:106-115 | Read as a line of a hosts file, the entry for a name maps this name to 127.0.0.1 and nothing else |
| Hosts.ReadBlock | hosts/hosts.go:121-152 | The reading scan collects the lines of all blocks and stray markers |
| Hosts.ReplaceBlock | hosts/hosts.go:154-183 | The replacing scan drops them and puts the new text once per BEGIN |
| Hosts.HostsFile.Sync | hosts/hosts.go:43-73 | What becomes of a file that is missing, unreadable, not writable or fine, and exactly when it is an error |
| HostsMapping.FileCases | hosts/hosts.go:46-72 | A missing file is created with the block alone, one that cannot be read or written stays |
| Hosts.HostsFile.Remove | hosts/hosts.go:75-95 | The same for a removal |
| HostsProofs.SegsRender | hosts/hosts.go:154-183 | Parsing a rendered file gives back its plain lines and blocks |
| HostsProofs.ReplaceMeaning | hosts/hosts.go:154-183 | A replacement is: parse, drop empty lines at the end, render with the new block |
| HostsProofs.RemoveMeaning | hosts/hosts.go:75-95 | A removal renders the plain lines only |
| HostsTheorems.NoOpIff | hosts/hosts.go:51-53 | A sync finds nothing to do if and only if the file holds the expected block in one piece and no other marker |
| HostsTheorems.AppendExactly | hosts/hosts.go:64-69 | Without markers the block goes behind the last character that is neither a newline nor a carriage return, on lines of its own, with one newline more |
| HostsTheorems.ReplaceTwice | hosts/hosts.go:154-183 | A second replacement forgets the first |
| HostsTheorems.SyncConverges | hosts/hosts.go:43-73 | For every content: the file after two syncs holds the block and a third changes nothing, and one sync is enough if and only if the file is not END without BEGIN |
| HostsKeeps.SyncKeepsOutside | hosts/hosts.go:60-70 | A sync keeps every line outside managed blocks, in order |
| HostsKeeps.RemoveLeavesOutside | hosts/hosts.go:75-95 | A removal leaves exactly those lines |
| HostsKeeps.RemoveIsFinal | hosts/hosts.go:75-95 | No marker is left and removing again changes nothing |
| HostsPositions.OutsideByPosition | hosts/hosts.go:159-175 | The lines kept are those that are no marker and have no marker before them or an END as the last one |
| HostsPositions.LostIff | hosts/hosts.go:159-175 | A line of the user's is lost if and only if a BEGIN stands before it that no END closes before it |
| HostsPositions.UnclosedLoses | hosts/hosts.go:159-175 | After a BEGIN that is never closed every line is lost |
| HostsKeeps.RemoveUndoesSync | hosts/hosts.go:43-95 | Removing after a sync is removing |
| HostsKeeps.LaterSyncWins | hosts/hosts.go:43-73 | A sync after a sync for other names is the later one alone if and only if the file is not END without BEGIN |
| HostsKeeps.BlockNamesExactly | hosts/hosts.go:97-119 | The block lists the TLD, its localhost alias and every domain, nothing else, and each once if no domain is repeated |
| HostsKeeps.BuiltBlockOk | hosts/hosts.go:97-119 | For names without newlines the block has markers only at its ends |
| HostsPositions.FileLinesOk | hosts/hosts.go:97-119 | For any names: as it stands in the file, the block is one of proper lines if and only if no line inside is a marker |
| HostsPositions.SyncConvergesForNames | hosts/hosts.go:43-73 | Syncs settle for any names, with newlines or not, that hold no marker line |
| HostsPositions.SyncThenRead | hosts/hosts.go:121-152 | From a file without markers and for names that hold no marker line the block read back is the one built, with an entry for every name that holds no newline |
| HostsMapping.SyncedMaps | hosts/hosts.go:97-119 | After a sync of a file without markers the block maps exactly the TLD, its alias and the domains, for names without white space, each to 127.0.0.1 |
| HostsMapping.AliasIs | generator/generator.go:429-434 | The alias is the first label of the TLD and `.localhost`, unless the TLD is one of `localhost` already, capital letters aside |
| HostsMapping.CommentsFirst | hosts/hosts.go:102-117 | The block stands between its two literal marker lines and maps nothing with them |
| Labels.ParseCustomDomains | generator/generator.go:436-470 | The loop over the entries of the label computes the parse |
| Labels.ParsePrint | generator/generator.go:436-470 | Parsing undoes printing for every list of ports and trimmed domains |
| Labels.ParseJoined | generator/generator.go:443-467 | Labels joined by a semicolon parse to the joined results, whatever they hold |
| Labels.ParsedOk | generator/generator.go:457-464 | Every result has a port that is not 0 and a trimmed domain that is not empty |
| Labels.EntryReads | generator/generator.go:444-466 | An entry gives the trimmed rest after its first colon with the port before it, unless the port reads as 0 or nothing is left |
| Labels.EntryWithoutColon | generator/generator.go:450-453 | An entry without a colon gives nothing |
| Labels.ScanReads | generator/generator.go:455-459 | The port is read from the digits at the start, whatever follows them, and is 0 if there are none or they do not fit 16 bits |
| Lines.TrimSpaceCuts | generator/generator.go:445 | Trimming takes white space from both ends, all of it and nothing else |
| Probe.PreferPorts | generator/probe.go:15-34 | The two loops compute the order of preference |
| Probe.ProbeHTTPPort | generator/probe.go:36-81 | The scan returns the first answering port in that order, or none |
| Probe.PreferredIsPermutation | generator/probe.go:15-34 | The same ports, and a permutation if none is repeated |
| Probe.PreferredOrder | generator/probe.go:15-34 | Common ports first in their fixed order, the others behind in theirs |
| Probe.PreferredRanked | generator/probe.go:13-34 | 80 is tried before 8080, 443, 8443 and any other, in this order |
| Probe.FirstAnsweringIsFirst | generator/probe.go:59-80 | No port before the one returned answers, and none at all if none is returned |
| Registry.ExtractPorts | generator/generator.go:553-566 | The distinct private ports in ascending order |
| Registry.Generator.EnterListed | generator/generator.go:119-161 | The loop over the listed containers merges every eligible one |
| Registry.Generator.PruneUnlisted | generator/generator.go:163-172 | Deleting while ranging in any order gives the comprehension |
| Registry.Generator.RefreshLocked | generator/generator.go:114-173 | The refresh as a function of the old records, the list and the clock |
| Registry.Generator.SelectPortsLocked | generator/generator.go:312-331 | Every record is probed once, in any order |
| Registry.Generator.StaleCleanup | generator/generator.go:532-542 | Exactly the stopped records older than the limit go |
| RegistryProofs.RefreshExactly | generator/generator.go:114-173 | With distinct ids: the merged record of every eligible listed container, every unlisted record that is stopped and young, unchanged, and nothing else |
| Listings.CountsIff | generator/generator.go:119-134 | Counted are the containers that share a network with the proxy or publish a port, or all of them standalone, but not the proxy itself nor those whose label says false, 0 or no, capital letters aside |
| Listings.KindIff | generator/generator.go:210-227 | Which of the two ways leads to a container |
| Listings.ProxyIsFirst | generator/generator.go:175-208 | The proxy is the first container whose id begins with the host name or the other way round, or that is called so |
| Listings.NameIsFirst | generator/generator.go:246 | A container is called by its first name that is not empty, without the leading slash |
| Listings.RecordExactly | generator/generator.go:138-160 | Every field of the record after a refresh, from the listing and the old record: a running one as listed, one that has just stopped with its old ports and address and the time of the refresh, one known to be stopped with its old stamp, a new one as listed |
| Listings.StopLasts | generator/generator.go:143-172 | A container that was running when a refresh finds it stopped is still there, stamped with that time and otherwise as it ran, after any later events up to the limit that do not find it running |
| Listings.PublishedIff | generator/generator.go:253-258 | A private port is published under the last public port that is not 0 |
| RegistryProofs.ProbedSelects | generator/generator.go:312-331 | A probe changes the selected port only, to the first effective port in preference order that answers |
| RegistryProofs.RunKeepsOk | generator/generator.go:138-172 | On every run the key is the id, running is having no stop time, and a running record has no selected port or one of its effective ports |
| RegistryProofs.AfterStopped | generator/generator.go:143-157 | A stopped record is frozen by any event that leaves it stopped, and one that is dropped was stopped for longer than the limit |
| RegistryProofs.RunFreezes | generator/generator.go:143-157 | ... and over any run |
| RegistryProofs.RunKeepsYoung | generator/generator.go:163-172 | A stopped record that is not started again is not dropped before more than the limit has passed |
| RegistryProofs.CleanupSweeps | generator/generator.go:532-542 | On every run no record stopped for longer survives a cleanup, and the others are untouched |
| RegistryProofs.CleanupForgets | generator/generator.go:144-157 | A record dropped by a cleanup comes back if and only if Docker lists the container and it is eligible, and then, if stopped, with the time of the next refresh |
| RegistryProofs.RoundSelects | generator/generator.go:312-331 | On every run that ends in a refresh with a probe round: each running container without a domains label has the first answering of its effective ports, and 0 if none answers |
| Views.DomainTargets | generator/generator.go:375-412 | The loop over the records in any order computes the view |
| Listings.LabelledGives | generator/generator.go:385-394 | A running container gives, for each entry of its label, the entry's domain and its host with the port under which the entry's port is reached: the published one by the gateway, else the private one |
| Listings.ProbedGives | generator/generator.go:397-404 | A running container without a label gives, after a probe round, its two names, project.service or its name with the TLD and with localhost, and its host with the answering port of the best rank, or nothing if none answers |
| Views.GroupCounts | generator/generator.go:379-383 | Each address is listed for a domain as often as it was contributed |
| Views.PairsOrderFree | generator/generator.go:385-405 | The contributions are the same multiset in any iteration order |
| Views.TargetsExactly | generator/generator.go:375-412 | Each domain has the sorted multiset sum of the contributions of the running containers, no more domains and no fewer |
| Views.TargetsConserve | generator/generator.go:375-412 | All domains together list exactly the contributions, and so as many addresses |
| Views.Domains | generator/generator.go:490-530 | The loop with its seen-set returns the domains in ascending order, each once |
| Views.DomainsAreTargetsAndUnprobed | generator/generator.go:490-530 | The domains are the keys of the targets and the names of the containers reachable but not probed successfully |
| Listings.UnprobedListed | generator/generator.go:350-362 | One that has no address yet is listed by these names if and only if it is reached by its name and has a port, or by the gateway and publishes one |
| Views.ProxiedHostsResolve | cmd.go:174-179 | After a sync of a file without markers, for names that hold no marker line, every host with a proxy route is listed once and, unless it holds a newline, has its entry |
| HostsMapping.ProxiedHostsMapped | cmd.go:174-179 | ... and is mapped to 127.0.0.1, if it holds no white space |
| Debounce.Controller.StreamEvents | discovery/discovery.go:114-148 | The select loop computes, input by input, the end state, the status and what it adds to the log |
| Debounce.ErrorShows | discovery/discovery.go:56-77 | On every run, polls included, an error is shown if and only if something has failed since the last refresh that succeeded |
| DebounceEvents.FailureShows | discovery/discovery.go:56-77 | The error shown is that of the last failure, with its time |
| Debounce.RefreshTimeShows | discovery/discovery.go:63-69 | On every run, polls included, the time shown is that of the last refresh that succeeded |
| Debounce.CrashedIff | discovery/discovery.go:134-139 | The program crashes if and only if the loop finds the error channel closed |
| DebounceEvents.RunningIff | discovery/discovery.go:119-139 | The loop goes on exactly as long as it is not cancelled, its stream neither closed nor failed, and its error channel open |
| Debounce.RunGood | discovery/discovery.go:114-148 | On every run a waiting event means an armed timer due 100 ms after the first one waiting, refreshes never outnumber events, and an apply is requested after each refresh |
| Debounce.EventServedOrDue | discovery/discovery.go:114-148 | At every moment of every run each accepted event has a refresh and a request for an apply after it, or the timer is armed and due within 100 ms of the event |
| DebounceEvents.MessageServedOrDue | discovery/discovery.go:114-169 | On every run after each message that a container has started, stopped, died, been destroyed or created, or a network connected or disconnected, there has been a refresh and a request for an apply, or the timer is due no later than 100 ms after it |
| DebounceEvents.RefreshesBounded | discovery/discovery.go:123-145 | Ticks set off no more refreshes than there were such messages, and none without any |
| DebounceEvents.TickWaits | discovery/discovery.go:129-132 | A tick comes no earlier than 100 ms after the first message waiting |
| Debounce.TickServesAll | discovery/discovery.go:140-145 | Once the timer ticks, every event accepted before has a refresh and a request for an apply after it |
| Debounce.PendingTickRefreshes | discovery/discovery.go:140-145 | A tick while an event waits comes no earlier than the deadline and refreshes once |

## Left out

- HTTP transport, connection errors beyond transient or permanent, and backoff timing: an attempt has one of the outcomes above.
- JSON and SHA-256: objects are records compared as a whole, and a digest stands for the bytes that go into it; the fallback when encoding the containers fails is not modelled.
- Caddy's own objects: an id that occurs twice is resolved to its first occurrence, routes before policies; other writers to the admin server are not modelled.
- The listen addresses and ports written when the server node is created, and the content of the index route: it is one foreign object without an id, posted once.
- The index page, autosave, `version.json`, Caddyfile adaptation, configuration, flags, signals: whether the index page was written is an input.
- Docker calls and their errors: a list of containers is an input; a failed refresh changes no record and shows in the debounce loop only as an error text.
- The choice of IP address and gateway among several networks: each listed container carries one of each.
- Names of containers without names and with an id shorter than twelve characters, where the program would crash.
- Case folding outside ASCII in the TLD and the skip label, and invalid UTF-8.
- Aliasing of container records read while a refresh goes on: a read takes the whole registry at one moment.
- Writing the hosts file by a temporary file and rename: a file is writable or not.
- AdminApi.AdminAPI: the stored fingerprint of the client is a field of `Reload.Reloader`, the only code that uses it.
- HostsTheorems.SyncConverges: stated for blocks whose markers stand at the ends only. `FileLinesOk` says for which names that is so; names that hold a whole marker line are not covered, here and in `HostsPositions.SyncThenRead` and `Views.ProxiedHostsResolve`.
- Apply.SkipIsSound: for registries of clean records, which `RunKeepsClean` derives from what Docker lists, and runs in which no apply fails with harm; `FailedReconcile` and `FailedWrite` say which failures are harmful.
- The poll loop and the cleanup loop as loops: a poll's refresh is an input of the debounce loop, and the applies they request are steps `TryBegin` of `Apply`.
- Debounce.Controller.StreamEvents: a refresh and an apply take no time of their own, and the inputs that arrive meanwhile come after them; the 30 s between two streams is not modelled.
