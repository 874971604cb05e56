# mackerel-operator: a verified model

The operator keeps one Mackerel external HTTP monitor in step with each `ExternalMonitor` custom resource.  It knows its
own monitors only by a marker it writes at the end of their memo, so nearly everything it promises rests on that marker
surviving human edits, on the planner reading it correctly, and on the reconciler writing it in the right order.  This
project models those parts and proves what they promise, first one by one and then over all runs of the whole operator.

| file | models |
|---|---|
| `GoStrings`, `Outcomes` | byte strings, options and results |
| `Marker`, `MarkerMatching`, `MarkerTheorems` | the ownership marker: escaping, the pattern as a leftmost backtracking matcher, apply and remove; the pattern's declarative meaning; what a written marker means afterwards |
| `Model`, `HeaderOrder`, `Planner` | desired and actual state, the hash, header comparison by sorting, the plan |
| `Binary64`, `Provider` | round-to-nearest-even conversion of integers, the wire format, merge and read-back, the server's store |
| `Source`, `Secrets` | from a spec to a desired state; header values from Secrets; the Secret index |
| `Settings` | from a spec to what is sent to Mackerel, and from what Mackerel holds to being in sync, in terms of the two ends alone |
| `Search` | looking for a monitor in the list |
| `Status`, `Resources` | status marks and patches, finalizers, versions, the in-memory copy the code mutates |
| `Protocol` | the operator as a state machine: one worker per custom resource, one API call per step, everybody else in between |
| `OwnershipInvariant`, `Origins`, `RunTheorems` | the invariants every step keeps (who owns what; where plans and generations come from), and what they mean for every run |
| `World`, `Reconciler` | the reconciler's code against API clients, proved to make exactly the protocol's steps, and what it returns |
| `QuietRuns`, `Convergence`, `Recovery`, `Finalization` | what happens when nobody interferes and no call fails |
| `Realization` | what being in sync means for a user: settings, headers, marker and status |
| `Reconciliations` | what the reconciler's code comes to: its reconciliations extend runs, and what undisturbed ones achieve |
| `Limits` | concrete runs that break a guarantee once an assumption is dropped |

## How the pieces fit

`Reconciler.Reconcile` is imperative code over `World.Clients`.  The clients are given their surroundings: what others
make of the state before each call (`others`, which must obey the rules of `Protocol`) and the accidents of each call
(`fates`: it fails, its response is lost, a cached read is old, lists come in some order).  Every call moves the worker's
program counter; a call out of order, or with other arguments than the protocol says, violates a precondition.  The
clients keep a ghost record of the events, each the state before the worker's step and the fate of the step.

The contract of `Reconcile` fixes that record.  It starts with a read and ends when the worker is idle again; every
event is the one that the surroundings give (`World.Given`); the final state is the one after the last event; and the
outcome is `Reconciler.Report` of the last event.  So two things can be concluded of the code.  With
`Reconciliations.ReconciliationExtendsRun` a reconciliation goes on with any run that led to its first state, and the
theorems of `RunTheorems` hold before, during and after it.  With the other lemmas of `Reconciliations` one undisturbed
reconciliation, from any state of any run, recovers, and the next one rests.  A crash is a step of the protocol, possible
at any point of a run: it drops the program counter.

The runs assume the following.

- There is one worker per custom resource.  Only the operator writes the status and its own finalizer.
- Nobody else writes a marker that names one of the operator's resources where it was not; stripping markers, and editing
  or deleting monitors, is free.
- Memos are such that one removal pass leaves no marker.  `MarkerTheorems.NestedMarkerSurvivesRemoval` is a memo for which
  it does, and `MarkerTheorems.RoundTripExactlyOnCleanMemos` shows that the round trip needs exactly this.
- Specs satisfy the CRD's rule on headers.  A spec edit raises the generation, and so does a request to delete; nothing
  else touches it.
- A worker's reads do not go back: each is at least as recent as the worker's last read, be it from the cache or, after a
  conflict, past it.
- A read from the cache does not miss the version that recorded the monitor id in the status (`Protocol.Fresh`).  Other
  commits of the worker it may miss.  Reads that do not go back, and nothing more, are not enough:
  `Limits.MonotoneReadsAllowTwoOwners` is a run from the start to two monitors that carry one identity.  In it a monitor
  is created and recorded; a human strips its marker and renames it; a read from before the status patch leads to a second
  monitor; the worker crashes; the human renames the first monitor back; and the next reconciliation restores its marker.

## Where the code and its own words disagree

- A `RequeueAfter` is said never to accompany an error (lines 209-210 of the controller).  It does exactly if a header
  value is unresolvable and the status patch is made and fails (lines 112-115): `Reconciler.RequeueWithErrorExactly`, and
  `Limits.BothAreReturned` for such an input.
- Adoption is meant to change no setting.  A response-time threshold with a fraction matches its integer part and is
  then rounded down (`Provider.FractionIsRoundedDown`); `Provider.AdoptionKeepsExpressibleSettings` has the exact
  condition.  Over a run an edit that somebody makes between the search and the write may be overwritten as well;
  `RunTheorems.AdoptionOverARun` has the exact condition for that.
- A spec memo is to fit with its marker into 2048.  A memo of the admitted 1900 bytes, without a marker, fits exactly if
  the three escaped marker fields have at most 89 bytes together, or 90 if the memo ends in a newline
  (`MarkerTheorems.LongestMemoFits`; `MarkerTheorems.MemoFits` for every memo; `MarkerTheorems.LongMemoOverflows` for one
  that does not fit).
- An observed generation is taken to say which spec the monitor was made from.  But after a conflict while the finalizer
  is added, the plan is still the one made from the version that was read (`Limits.UnseenGenerationIsRecorded`).  The
  recorded generation is that of the spec behind the plan exactly if nobody has edited the spec or asked for the deletion
  between the read and the accepted patch (`RunTheorems.RecordedGeneration`), as long as the resource was not re-created
  meanwhile, which can hide the edit (`Limits.ReCreationHidesTheEdit`).

## Model

| member | source | states |
|---|---|---|
| Marker.EscapeMarkerValue | internal/ownership/marker.go:69-80 | the index loop computes the escaping that `UnescapeEscape` inverts |
| Marker.UnescapeMarkerValue | internal/ownership/marker.go:82-100 | the index loop computes the partial decoder, rejecting exactly malformed escapes |
| MarkerTheorems.UnescapeEscape | internal/ownership/marker.go:69-115 | every byte string survives escaping and unescaping |
| MarkerTheorems.EscapeInClass | internal/ownership/marker.go:102-115 | an escaped value contains no comma, white space or angle bracket, and is empty only if the value is |
| MarkerTheorems.EscapeLength | internal/ownership/marker.go:69-80 | escaping gives between one and three bytes per byte, one per safe byte |
| MarkerTheorems.EscapeByBytes | internal/ownership/marker.go:69-80 | each byte is escaped on its own: letters, digits and four marks are kept, any other becomes a percent sign and two upper-case digits |
| MarkerTheorems.UnescapePercent | internal/ownership/marker.go:82-100 | behind a percent sign exactly two hexadecimal digits of either case are accepted |
| MarkerTheorems.PatternClasses | internal/ownership/marker.go:12 | the white space and the capture class of the pattern, in code points |
| MarkerTheorems.MarkerText | internal/ownership/marker.go:20-28 | the marker's text around its escaped fields |
| MarkerTheorems.AppliedText | internal/ownership/marker.go:54-63 | the marker is put behind what is left without the old ones, on a line of its own |
| MarkerMatching.MatchHereSpec | internal/ownership/marker.go:12 | the matcher succeeds exactly if some prefix has the declarative shape of the pattern, and its match is such a prefix with its captures |
| MarkerMatching.SameWordSameHash | internal/ownership/marker.go:12 | a matched word determines its captures although the hash group backtracks |
| MarkerMatching.FindIsLeftmost | internal/ownership/marker.go:31-34 | nothing of the pattern's shape starts before the match that is found, and nothing at all if none is found |
| MarkerTheorems.MatchHasNoBreak | internal/ownership/marker.go:12 | no match contains a newline directly before an opening angle bracket |
| MarkerTheorems.MatchStopsAtBarrier | internal/ownership/marker.go:54-63 | what is written behind a line end does not change the matches that start before it |
| MarkerTheorems.FindAcrossBarrier | internal/ownership/marker.go:30-34 | search splits at the barrier: the front decides unless it has no match |
| MarkerTheorems.RemoveAcrossBarrier | internal/ownership/marker.go:65-67 | removal splits at the barrier |
| MarkerTheorems.RemoveWithoutMarker | internal/ownership/marker.go:65-67 | a text without a marker is left as it is |
| MarkerTheorems.BuildMarkerLength | internal/ownership/marker.go:20-28 | a marker is 58 bytes and its three escaped fields |
| MarkerTheorems.FindBuildMarker | internal/ownership/marker.go:20-52 | a printed marker with non-empty fields is found whole and removed whole |
| MarkerTheorems.ParseAfterApply | internal/ownership/marker.go:30-63 | what is read back from a written memo, for every memo: the new marker, or the one that removal exposed |
| MarkerTheorems.RoundTripExactlyOnCleanMemos | internal/ownership/marker.go:30-67 | all complete markers can be read back from a memo if and only if one removal pass leaves none in it |
| MarkerTheorems.NestedMarkerSurvivesRemoval | internal/ownership/marker.go:65-67 | a memo with a marker nested in another: removal exposes a marker, and the round trip fails |
| MarkerTheorems.RemoveAfterApply | internal/ownership/marker.go:54-67 | removing the written marker gives the human text and at most one newline |
| MarkerTheorems.ApplyKeepsClean | internal/ownership/marker.go:54-67 | the memos the round trip holds for are closed under writing a marker |
| MarkerTheorems.OnlyMatchIsTheMarker | internal/ownership/marker.go:54-63 | the written memo contains exactly one word of the pattern, the marker at its end |
| MarkerTheorems.OnlyTheLastMarkerStays | internal/ownership/marker.go:54-67 | any number of updates is the last update; the text around the marker stays |
| MarkerTheorems.UpdatesDoNotGrow | internal/ownership/marker.go:54-67 | after any number of updates the memo is at most the original text, one newline and one marker long |
| MarkerTheorems.MemoFits | docs/superpowers/specs/2026-04-23-mackerel-operator-design.md:167 | the exact room that the marker's fields have, for every memo and marker |
| MarkerTheorems.LongestMemoFits | docs/superpowers/specs/2026-04-23-mackerel-operator-design.md:167 | the exact condition under which a memo of the longest admitted length without a marker fits, with or without a final newline |
| MarkerTheorems.LongMemoOverflows | docs/superpowers/specs/2026-04-23-mackerel-operator-design.md:167 | a memo of 1900 letters and the marker of a resource for which it does not fit |
| Model.HashLaws | internal/monitor/hash.go:10-23 | a hash has the requested length, extends shorter ones, ignores the Hash field, and exists exactly for lengths 1 to 64 |
| Model.HashTellsApart | internal/monitor/hash.go:10-23 | two desired states that differ in anything but the Hash field have different hashes under some digest |
| HeaderOrder.ByNameThenValueIsTotalOrder | internal/planner/planner.go:123-132 | name-then-value byte order is a total order |
| HeaderOrder.CompareIsByteOrder | internal/source/externalmonitor.go:124-127 | at the first difference the lower byte goes first, and a proper prefix goes first |
| HeaderOrder.SortInPlace | internal/planner/planner.go:123-132 | the in-place sort leaves the sorted arrangement in the array |
| HeaderOrder.SortedArrangementIsUnique | internal/planner/planner.go:117-135 | given headers have one sorted arrangement, however they were sorted |
| HeaderOrder.SortByNameIsStable | internal/source/externalmonitor.go:124-127 | the sort keeps equal names in the order of declaration |
| HeaderOrder.SortByNameForgetsOrder | internal/source/externalmonitor.go:124-127 | with unique names the sorted list does not depend on the order of declaration |
| Planner.CompareSortedClones | internal/planner/planner.go:117-135 | cloning, sorting and comparing computes the header comparison |
| Planner.HeadersMatchIsMultisetEquality | internal/planner/planner.go:117-135 | the header comparison holds exactly for equal multisets |
| Planner.MatchesExactly | internal/planner/planner.go:75-95 | a monitor matches exactly if every setting is equal, unset and ipv4 being the same, and managed headers are equal in any order |
| Planner.PlanExactly | internal/planner/planner.go:34-56 | when each action is taken and for which reason: the marker decides, then its hash, then the settings |
| Planner.PlanDeleteExactly | internal/planner/planner.go:58-73 | a monitor is deleted exactly under the policy "sync" and with a marker of this owner and resource |
| Planner.EditIsCarriedOut | internal/planner/planner.go:51-55 | whatever two desired states of a resource differ in, under some digest a monitor in sync with one is planned as an update for the other |
| Binary64.RoundsToNearestEven | internal/provider/mackerel.go:285-295 | the integer-to-double conversion is the nearest multiple of the unit in the last place, ties to even |
| Binary64.FirstLoss | internal/provider/mackerel.go:285-295 | integers to 2^53 are exact and 2^53 + 1 is the first that is not |
| Binary64.IntSurvivesFloat64 | internal/provider/mackerel.go:253-260 | an integer comes back from a double exactly if it is representable |
| Provider.HeaderFieldsFromMackerel | internal/provider/mackerel.go:330-337 | the loop converts every header in order |
| Provider.HeaderFieldsToMackerel | internal/provider/mackerel.go:343-350 | the loop converts every header in order |
| Provider.MergeMackerelExternalMonitor | internal/provider/mackerel.go:149-209 | converting, then overwriting a copy field by field, computes the merge that the laws below are about |
| Provider.MergeLaws | internal/provider/mackerel.go:149-209 | merging fails exactly for a negative managed number, keeps the server's id and unmanaged headers, is idempotent |
| Provider.LastMergeWins | internal/provider/mackerel.go:149-209 | a later merge erases an earlier one exactly up to headers that only the earlier one managed |
| Provider.WriteReadRoundTrip | internal/provider/mackerel.go:117-209 | a merged desired state reads back as in sync exactly if it is in the range of the wire format |
| Provider.StoredMatchesExactlyInRange | internal/controller/externalmonitor_reconcile_test.go:700-774 | the same for what the server keeps of a creation or an update, injected headers included |
| Provider.ThresholdLimit | internal/provider/mackerel.go:253-295 | thresholds to 2^53 are in range, 2^53 + 1 is not |
| Provider.AdoptionKeepsExpressibleSettings | internal/provider/mackerel.go:75-97 | adopting a matching monitor keeps all its settings, up to header order and explicit ipv4, exactly if its numbers are in the range of int and its thresholds are whole numbers that a double represents |
| Provider.FractionIsRoundedDown | internal/provider/mackerel.go:253-283 | a threshold of 1.5 matches a resource that asks for 1, and adopting it makes it 1 |
| Provider.AdoptionOverStored | internal/provider/mackerel.go:75-97 | a payload merged into an earlier reading keeps the settings of what is stored by now exactly if that is as desired and expressible too, and unmanaged headers are those of the reading |
| Source.CollectAndSortHeaders | internal/source/externalmonitor.go:108-130 | collecting in a loop and sorting in place computes the sorted headers, or the first header's error |
| Source.DesiredForgetsHeaderOrder | internal/source/externalmonitor.go:32-106 | for given header values, rearranging uniquely named headers changes neither desired state nor hash |
| Source.ResourceNameIsInjective | internal/source/externalmonitor.go:78-79 | distinct custom resources have distinct resource names |
| Source.DeletionIdentityAgrees | internal/controller/externalmonitor_controller.go:394-404 | the deletion source names the same monitor, owner and resource as the normal one, and fails exactly for a header with neither value nor source |
| Settings.DesiredIsAsAsked | internal/source/externalmonitor.go:32-106 | each field of the desired state is the one of the spec, up to the three defaults |
| Settings.MatchesSpecExactly | internal/planner/planner.go:75-95 | a monitor that Mackerel holds counts as matching a custom resource exactly if each setting is what the spec asks for, in the terms of the wire format |
| Settings.PayloadIsAsAsked | internal/provider/mackerel.go:149-209 | each setting that is sent is what the spec asks for, thresholds as the nearest doubles; what the spec does not manage is that of the base |
| Settings.NewMonitorIsSent | internal/provider/mackerel.go:61-73 | the same for a creation, and what Mackerel adds to it |
| Settings.UnsentIsKept | internal/controller/externalmonitor_reconcile_test.go:695-774 | what Mackerel keeps of an update: its id, headers and dualstack that are not sent, and everything else as sent |
| Settings.MemoEditIsCarriedOut | internal/monitor/hash.go:15-16 | an edit of the memo alone, which no comparison sees, is planned as an update under a digest that tells it apart |
| Secrets.ResolveHeaderValues | internal/controller/headers.go:50-88 | the memoised loop reads no Secret twice, reads only mentioned ones, all of them on success, and returns what direct reads of one snapshot return |
| Secrets.SecretNamesForExternalMonitor | internal/controller/headers.go:101-118 | the loop computes the index entries of a custom resource |
| Secrets.SecretNamesSpec | internal/controller/headers.go:101-118 | the index entries are the mentioned non-empty Secret names, each once |
| Secrets.NoPartialHeaders | internal/source/externalmonitor.go:108-152 | if every reference resolves, collecting drops no declared header, adds none, and gives each the value it stands for |
| Secrets.DesiredHeadersAreDeclared | internal/source/externalmonitor.go:32-152 | so the headers of the desired state are, sorted by name, exactly the declared ones with their inline or Secret values |
| Secrets.ResolvesExactly | internal/controller/headers.go:50-88 | header values resolve exactly if every header that refers to a Secret finds its value, and there is a value for exactly these headers |
| Secrets.FirstProblemDecides | internal/controller/headers.go:57-96 | the first header that does not resolve decides the error, and the resource waits for a user exactly if that one refers to a Secret that is not found or lacks the key |
| Secrets.RefusedExactly | internal/source/externalmonitor.go:32-152 | with resolved values a spec has no desired state exactly for a bad hash length or a header with neither value nor source |
| Secrets.RefusalNames | internal/source/externalmonitor.go:52-104 | a refusal names the first header with neither value nor source, else the hash length |
| Secrets.HeaderOrderIsForgotten | internal/source/externalmonitor.go:32-130 | rearranging uniquely named headers changes neither what their Secrets resolve to nor the desired state and its hash |
| Secrets.IndexIsWhatIsRead | internal/controller/externalmonitor_controller.go:316-335 | a custom resource is indexed under exactly the Secrets its resolution mentions |
| Secrets.ExternalMonitorsForSecret | internal/controller/externalmonitor_controller.go:319-335 | a Secret event enqueues exactly the indexed custom resources of its namespace |
| Search.ScanList | internal/controller/externalmonitor_controller.go:348-368 | the scan returns the first owned monitor unless two namesakes precede it, else the only namesake, nothing, or an ambiguity |
| Search.FoundMeans | internal/controller/externalmonitor_controller.go:348-368 | what each search result says about ownership in the whole list |
| Search.FindByParts | internal/controller/externalmonitor_controller.go:348-368 | with at most one owned monitor and one namesake the search depends on these alone |
| Search.OrderIndependentExactly | internal/controller/externalmonitor_controller.go:348-368 | with at most one owned monitor, the list's order does not matter exactly if none is owned or at most one namesake competes |
| Resources.ExternalMonitor.MarkReady | internal/status/externalmonitor.go:35-52 | the in-place update of the copy's status |
| Resources.ExternalMonitor.MarkOwnershipLost | internal/status/externalmonitor.go:54-63 | the in-place update of the copy's status |
| Resources.ExternalMonitor.MarkInvalidSpec | internal/status/externalmonitor.go:65-74 | the in-place update of the copy's status |
| Resources.ExternalMonitor.MarkError | internal/status/externalmonitor.go:76-85 | the in-place update of the copy's status |
| Status.SetConditionSpec | internal/status/externalmonitor.go:87-89 | setting a condition changes at most one condition, of its own kind |
| Status.MarkSetsReady | internal/status/externalmonitor.go:35-89 | every mark sets the Ready condition at the resource's generation and keeps the others; only readiness moves the monitor id |
| Status.MarkSays | internal/status/externalmonitor.go:35-89 | the reason and message of each mark in words, which fields it sets and which it leaves, and that the transition time moves exactly if readiness does |
| Status.FirstMark | internal/status/externalmonitor.go:54-85 | the first mark of a resource without a monitor sets one condition and names no monitor |
| Status.PatchOntoSameIsWholesale | internal/controller/externalmonitor_controller.go:226-242 | a status patch carries exactly the fields that the mark changed |
| Status.SteadyStateKeepsStatus | internal/controller/externalmonitor_controller.go:226-242 | the same mark again, with nothing applied, changes no field of the status |
| Resources.MutationKeepsOthers | internal/controller/externalmonitor_controller.go:244-256 | adding or removing our finalizer keeps the others in order, and doing it twice is doing it once |
| Resources.LockSavesConcurrentFinalizer | internal/controller/externalmonitor_controller.go:258-264 | a patch without the lock drops a finalizer added concurrently; with the lock it is refused |
| Resources.NoChangeDropsNothing | internal/controller/externalmonitor_controller.go:279-283 | a finalizer change that is none sends no list and so drops nothing |
| OwnershipInvariant.PatchSpec | internal/controller/externalmonitor_controller.go:271-285 | a finalizer patch that the server accepts was computed from the version it is committed over |
| OwnershipInvariant.WrittenMemo | internal/controller/externalmonitor_controller.go:154-179 | a memo the operator writes names its own custom resource and no other |
| OwnershipInvariant.SearchMeans | internal/controller/externalmonitor_controller.go:337-369 | a search of the whole list decides which monitor carries the identity |
| OwnershipInvariant.CreateKeeps | internal/controller/externalmonitor_controller.go:163-166 | a creation, answered or not, keeps the invariant and harms no other custom resource |
| OwnershipInvariant.PutKeeps | internal/provider/mackerel.go:75-97 | so does an update |
| OwnershipInvariant.DeleteKeeps | internal/controller/externalmonitor_controller.go:371-377 | so does a deletion |
| OwnershipInvariant.AddKeeps | internal/controller/externalmonitor_controller.go:132-136 | so does adding the finalizer |
| OwnershipInvariant.RemoveKeeps | internal/controller/externalmonitor_controller.go:250-256 | so does removing it |
| OwnershipInvariant.MarkKeeps | internal/controller/externalmonitor_controller.go:226-242 | so does a status patch |
| OwnershipInvariant.NextKeeps | internal/controller/externalmonitor_controller.go:78-224 | every step of a worker or of anybody else keeps the invariant |
| Origins.GenerationTells | internal/status/externalmonitor.go:35-52 | the generation that is recorded stays that of a version exactly as long as nobody edits the spec or asks for the deletion |
| RunTheorems.AtMostOneOwnedMonitor | internal/controller/externalmonitor_controller.go:78-224 | in every run, under the assumptions above, at most one monitor carries a custom resource's identity |
| RunTheorems.NamedMonitorIsExclusive | internal/controller/externalmonitor_controller.go:337-346 | in every run, if the status names a monitor that exists, no other carries the identity |
| RunTheorems.SyncLeavesNoOrphan | internal/controller/externalmonitor_controller.go:93-136 | under policy sync a monitor carries the identity only while its custom resource exists with our finalizer |
| RunTheorems.OwnersAreDisjoint | internal/planner/planner.go:47-49 | distinct custom resources never own one monitor |
| RunTheorems.UpsertOnlyNeverDeletes | internal/planner/planner.go:63-65 | unless the policy is sync no step of a worker removes a monitor |
| RunTheorems.OnlyOwnOrAdoptableMonitorsAreWritten | internal/controller/externalmonitor_controller.go:162-192 | foreign safety: a monitor that is changed or deleted is the one the worker planned for and has seen with its own resource's marker; or, to be changed, unmarked and matching the desired state that the worker built from a spec of its resource |
| RunTheorems.AdoptionOverARun | internal/provider/mackerel.go:75-97 | over a run an update keeps all settings of the stored monitor exactly if it still is as desired and expressible and unmanaged headers are those of the base, an earlier stored state into which the payload was merged |
| RunTheorems.RecordedGeneration | internal/controller/externalmonitor_controller.go:126-148 | a mark of readiness carries the hash of a plan built from the version that was read, and records the generation of that version exactly if no spec edit or deletion request came before the accepted finalizer patch |
| Convergence.PlanAfterWrite | internal/planner/planner.go:34-56 | what was just written is planned as nothing to do exactly in range, else as an update |
| Convergence.CreateEnds | internal/controller/externalmonitor_controller.go:163-166 | undisturbed, a creation stores a monitor made from the desired state and its status names it |
| Convergence.UpdateEnds | internal/controller/externalmonitor_controller.go:167-179 | so does an update or a restored marker, on the monitor it was planned for |
| Convergence.WrittenIsSynced | internal/controller/externalmonitor_controller.go:148-223 | a resource whose monitor was just written is in sync exactly if the desired state is in range |
| Convergence.SyncedRests | internal/controller/externalmonitor_controller.go:148-242 | undisturbed, a reconciliation of a resource in sync writes nothing and patches nothing, and leaves it in sync |
| Convergence.OutOfRangeNeverRests | internal/controller/externalmonitor_controller.go:167-223 | out of range each reconciliation after a write writes the same monitor again |
| Realization.NormalSourceIs | internal/controller/externalmonitor_controller.go:386-425 | the flags and their defaults: owner "default", 7 digits of hash |
| Realization.SyncedIsRealized | internal/controller/externalmonitor_controller.go:211-219 | a resource in sync has a monitor with the settings, headers and marker that its spec asks for, and a status that names it with its url, name and hash, ready and at the current generation |
| Recovery.SearchIsDecided | internal/controller/externalmonitor_controller.go:337-369 | the search has one answer, whatever the order of the list, unless the status names no monitor that exists although one carries the identity |
| Recovery.Recovers | internal/controller/externalmonitor_controller.go:78-224 | from any state in which a worker is idle one undisturbed reconciliation ends in sync, or just written, or with nothing written and a status that explains why |
| Recovery.WaitingRests | internal/controller/externalmonitor_controller.go:182-192 | a resource whose ownership is lost or ambiguous stays as it is: no write and no patch, unless it has gone astray |
| Recovery.AstrayIsAmbiguous | internal/controller/externalmonitor_controller.go:348-368 | going astray, where the order of the list matters, happens only when the search is ambiguous |
| Finalization.Finalizes | internal/controller/externalmonitor_controller.go:93-103 | undisturbed, a finalization under policy sync deletes exactly the monitor that carries the identity, found by id or through the list, and then lets the resource go; or the search is ambiguous and nothing happens |
| Limits.MonotoneReadsAllowTwoOwners | internal/controller/externalmonitor_controller.go:85-91 | if reads only do not go back, a run from the start ends with two monitors that carry one identity |
| Limits.UnseenGenerationIsRecorded | internal/controller/externalmonitor_controller.go:271-285 | a run in which a conflict makes the recorded generation that of a spec that was never planned |
| Limits.ReCreationHidesTheEdit | internal/controller/externalmonitor_controller.go:271-285 | a run in which a re-creation makes the recorded generation right for another spec |
| Limits.BlockedPatchFails | internal/controller/externalmonitor_controller.go:105-123 | for every resource and every answer of its Secrets: unresolvable, not yet said so in the status, and a status patch that fails, make a reconciliation of three steps return a requeue and an error |
| Limits.BothAreReturned | internal/controller/externalmonitor_controller.go:112-115 | such an input: a run from the start, and a reconciliation that goes on with it, of a new resource whose Secret is missing |
| Limits.SkipsTheSearchExactlyForEmptyHeaders | internal/controller/externalmonitor_controller.go:93-97 | finalizing skips the search for a monitor exactly if some header has neither value nor source |
| World.EventsConnect | internal/controller/externalmonitor_controller.go:78-224 | every event but the first finds the worker where the event before it has left it, others having acted in between |
| Reconciler.RequeueWithErrorExactly | internal/controller/externalmonitor_controller.go:105-123 | a requeue comes with an error exactly if the last step is a failed status patch of a resource blocked on an unresolvable header value |
| Reconciler.SteadyAnswers | internal/controller/headers.go:50-88 | if Secrets do not change, a reconciliation resolves its headers as from one snapshot |
| Reconciler.PatchStatus | internal/controller/externalmonitor_controller.go:234-242 | one step; the error is exactly that of the patch, which is made exactly if the mark changes the status |
| Reconciler.Attempt | internal/controller/externalmonitor_controller.go:273-284 | one attempt: on success the change was made to exactly the version it was computed from |
| Reconciler.PatchFinalizers | internal/controller/externalmonitor_controller.go:271-285 | the loop makes at most five attempts, gives up on conflicts only after five, and is a linearizable read-modify-write, whoever writes in between |
| Reconciler.AddFinalizer | internal/controller/externalmonitor_controller.go:244-248 | on success the worker goes on with the version that has the finalizer, else it stops |
| Reconciler.RemoveFinalizer | internal/controller/externalmonitor_controller.go:250-256 | without an error the resource is gone or without our finalizer, and a resource that has vanished is not an error |
| Reconciler.GoneResourceIsReported | internal/controller/externalmonitor_controller.go:250-256 | a resource that is gone is no error when its finalizer is removed, and one when it is added |
| Reconciler.FindActual | internal/controller/externalmonitor_controller.go:337-369 | by id, then by list, in the protocol's order and with its result |
| Reconciler.ReconcileDelete | internal/controller/externalmonitor_controller.go:371-384 | deletes what the plan says or finds it gone, in its first step, and then lets the resource go; without an error our finalizer is gone, and a monitor planned for deletion did not exist after that step |
| Reconciler.Fail | internal/controller/externalmonitor_controller.go:138-147 | a problem is recorded and returned, with the error of the status patch behind it; but a write that failed for the rate of requests alone only comes back later |
| Reconciler.Block | internal/controller/externalmonitor_controller.go:105-123 | is requeued exactly if only a user can help; a requeue comes with an error exactly if the status patch was made and failed; otherwise the problem is returned first |
| Reconciler.Write | internal/controller/externalmonitor_controller.go:162-181 | its first step is the write that is planned, and its result is what the protocol goes on with |
| Reconciler.Apply | internal/controller/externalmonitor_controller.go:148-223 | its first step is the one that is planned, its outcome the report of its last step; asks to be requeued exactly if there is no error |
| Reconciler.Finalize | internal/controller/externalmonitor_controller.go:93-103 | the branch for a resource being deleted takes the protocol's steps until nothing is left to do; without an error our finalizer is gone |
| Reconciler.Resolve | internal/controller/externalmonitor_controller.go:105 | one step, with answers that the Secrets gave while it resolved |
| Reconciler.Ensure | internal/controller/externalmonitor_controller.go:132-223 | with a desired state: the finalizer first, then the search and the plan; never ends with neither an error nor a requeue |
| Reconciler.Synchronize | internal/controller/externalmonitor_controller.go:105-223 | the other branch takes the protocol's steps, resolving first; it ends with neither an error nor a requeue only for a spec with a bad hash length or an empty header |
| Reconciler.Handle | internal/controller/externalmonitor_controller.go:93-224 | after the read, one branch or the other, to the end; says what it means that there is nothing to return |
| Reconciler.Reconcile | internal/controller/externalmonitor_controller.go:78-224 | makes exactly the steps that its surroundings give, from a read until nothing is left to do; the outcome is the report of the last step, a requeue with an error occurs exactly as in `RequeueWithErrorExactly`, and nothing is returned only for a resource that is gone, let go or refused |
| Reconciliations.ReconciliationExtendsRun | internal/controller/externalmonitor_controller.go:78-224 | a reconciliation goes on with any run that led to its first state, so the theorems about runs hold of it |
| Reconciliations.OneReconciliationRecovers | internal/controller/externalmonitor_controller.go:78-224 | from any state of any run one undisturbed reconciliation of an in-range resource whose headers resolve ends in sync, or writes nothing and says why |
| Reconciliations.OneReconciliationRealizes | internal/controller/externalmonitor_controller.go:78-224 | so from any state of any run one undisturbed reconciliation makes the monitor what the latest spec asks for and the status tell so, or writes nothing and says why |
| Reconciliations.NextReconciliationRests | internal/controller/externalmonitor_controller.go:148-242 | and the next one takes four steps, writes nothing and patches nothing |
| Reconciliations.NextReconciliationWaits | internal/controller/externalmonitor_controller.go:182-192 | nor does it if ownership is lost or ambiguous, unless the resource has gone astray |
| Reconciliations.NextReconciliationWritesAgain | internal/controller/externalmonitor_controller.go:167-223 | out of range it writes the same monitor again, for ever |
| Reconciliations.OneFinalizationDeletes | internal/controller/externalmonitor_controller.go:93-103 | from any state of any run under policy sync one undisturbed finalization deletes exactly the monitor that carries the identity and lets the resource go, unless the search is ambiguous |
| Reconciliations.BlockedReconciliationWritesNothing | internal/controller/externalmonitor_controller.go:105-123 | a reconciliation whose header values do not resolve has one step left, and none of its steps touches Mackerel, whatever others do |
| Reconciliations.BlockedReconciliationReports | internal/controller/externalmonitor_controller.go:105-123 | and it marks SecretNotFound and comes back later exactly if the first header with a problem refers to an absent Secret or key; else it marks SecretError and returns the problem; a failed status patch is returned in addition |

## Left out

- HTTP, authentication and the mapping of status codes to errors: a call fails, or its response is lost, as the model's fate says; a failed read of one monitor answers not found only if it does not exist.
- A Mackerel read that lags behind Mackerel's own writes: a fetch and a list see the store as it is.
- Monitors of other kinds in the same Mackerel account: the store holds external HTTP monitors only, so the type errors they cause do not occur.
- A response-time threshold beyond the range of int: the conversion is as on amd64, where the result is the least integer.
- Fields of the wire format that the operator never touches (the request to Mackerel carries them unchanged).
- SHA-256 and JSON: the digest is any function into 64 hexadecimal digits; nothing needs it to be free of collisions.
- Sorting in place is an insertion sort; Go's library sorts differently, but there is only one result for the planner's order, and the source's sort is stable like this one.
- Memos are measured in bytes where the CRD and Mackerel count characters.
- Wall-clock time is any number, one per status mark; the precision at which the API server stores it is not modelled.
- The wording of errors, reasons and log lines: any function of the error that the code words.
- How long retries and requeues wait, and the work queue: a reconciliation may start at any time.
- Resource versions are per custom resource, and admission only guarantees what the CRD says about headers.
- A provider that is nil, or that answers success with a nil monitor; the planner actions that do not fit the branch.
- The controller's set-up, watches, metrics, health checks, flags, the Helm chart and the CEL injector: plumbing.
- RunTheorems.AtMostOneOwnedMonitor: assumes that no cached read misses the recorded monitor id, which the cache does not promise; `Limits.MonotoneReadsAllowTwoOwners` is a run without that assumption where it fails.
- RunTheorems.NamedMonitorIsExclusive: assumes the same.
- RunTheorems.SyncLeavesNoOrphan: assumes the same.
- Decoding a response into the copy that was changed: the model replaces the whole copy (`Resources.ExternalMonitor.Load`).  A client that kept fields absent from the response would keep the finalizer added by a refused attempt, and the retry would then patch nothing.
- Recovery.WaitingRests: does not say what becomes of a resource that has gone astray, because the list's order decides (`Search.OrderIndependentExactly`); `Recovery.Recovers` holds of it.
- RunTheorems.AdoptionOverARun: speaks of desired states in range; out of range an update changes the settings each time (`Convergence.OutOfRangeNeverRests`).
- Provider.AdoptionKeepsExpressibleSettings: a monitor's thresholds may be any real numbers, where the wire has doubles.
- Watches and caches as such: which version a cached read returns is arbitrary within the assumptions above.
