# Verification model of a one-box PaaS control plane

A Dafny 4.11 model of the parts of the control plane whose correctness is not
visible from any one function: textual rewriting of Traefik rules and label
blocks, forwarding between the static host and the backends, redirects,
access-log ingestion and percentiles, the document store, deploys through an
orchestrator that may drop or undo them, locks, and a few smaller exact cores.
`dafny verify dfyconfig.toml` checks everything.

| module | what it models |
|---|---|
| `TraefikRule` | Traefik's rule language: printer, parser, meaning |
| `HostRewrite`, `RuleLaws` | the regex and string rewriting of a rule, shown to be an operation on its conditions |
| `Labels`, `LabelLaws` | label blocks: scope, un-scope, enrol, strip, and how they combine |
| `Forwarding` | router choice and the two hops of a forwarded request |
| `LabelLanding` | label writes, their confirmation, the route sync |
| `StaticHost` | request resolution, waking, ownership of upstream connections |
| `Redirects` | the redirect pattern language, its matcher and its validation |
| `Tables`, `Ingest`, `Percentile` | log ingestion into rollups, and percentiles from histograms |
| `RagStore`, `RagRuns` | reference-counted documents, the full-text index, ingest jobs and deletes interleaved |
| `Similarity`, `RagSearch`, `Chunker` | quantised scores, rank fusion, chunking under a budget |
| `Deploys` | verification, the recorded digest, recorded outcomes |
| `Locks` | every path that takes a lock, and their interleavings |
| `Cron`, `BundleSwap`, `Latches` | schedules, the staged bundle swap, alert and heal latches |
| `Text`, `Numbers` | shared string and rounding vocabulary |

How the environment appears: orchestrator, containers, clocks, file operations
and network answers are values chosen freely (a sequence, a function of the
number of the call, or a parameter that says where an operation raises), so each
statement holds whatever they do. Durations and scores are real numbers; stamps
and start times compared as text are their ranks in that order.

Conditions found by reading the code are hypotheses with a name:
`HostRewrite.NothingEarlier` (no condition in front of the host term has text that
contains `Host(`), `HostRewrite.Readable` (that, and no condition other than the
marker whose text contains the marker's), `BundleSwap.Contained` (no name has a
second slash behind the common directory), `Forwarding.Settled` (containers carry what was
written for them, hosts are not shared), `Ingest.CleanCut` (stamps strictly grow
across a cut), `RagRuns.Quiet` (no delete between finding a content and attaching
to it). Lemmas beside them show what happens without them.

Where the code and its documentation disagree the model follows the code:
`unscoped` is idempotent only outside rules made of markers alone
(app/routing.py:249); an accepted bundle can hold a name that is absolute once the
common directory is off it, so it is not always staged in full before the swap
(app/frontends.py:47-49, 78-79, 101-105); quantised ranking can differ from the true one
(rag/embed.py:51-54); a deploy whose target image cannot be inspected can be
reported as verified with no image compared (app/autoupdate.py:384-389);
validated redirects need not compile (web/redirects.py:57-58); `*` does not match a
newline and a pattern also matches in front of a final one (web/redirects.py:16, 46); a truncation flag
can be raised with nothing lost (rag/chunk.py:42-44); the hourly sweep deploys without
the lock that other deploys of an app take (app/locks.py:15-20, app/autoupdate.py:503-512).

## Model

| member | source | states |
|---|---|---|
| `TraefikRule.ParsePrinted` | app/routing.py:116-141 | A printed rule is read back as the expression it was printed from at every level, with conjunction binding tighter than disjunction and whatever follows left alone. |
| `TraefikRule.PrintedMeaning` | app/routing.py:116-141 | Round trip: parsing a whole printed rule gives the expression back, so the text answers exactly the requests the expression holds of; a rule with a matcher of the wrong arity parses to nothing. |
| `TraefikRule.AcceptedIsProper` | app/routing.py:116-141 | Whatever text is accepted is a rule: letters for names, one argument for Host, two for Header, no backtick in an argument. |
| `TraefikRule.TrailingTextRejected` | app/routing.py:116-141 | Text left over after a complete rule makes it no rule. |
| `HostRewrite.HostTermPrinted` | app/routing.py:116-137 | The text built for a host list, bare or grouped, is the printed disjunction of one `Host()` per name. |
| `HostRewrite.RewriteRefines` | app/routing.py:144-164 | The leftmost-match text substitution replaces the host condition of a conjunction and nothing else, and puts one in front of a rule that has none. |
| `HostRewrite.ScopedRefines` | app/routing.py:224-230 | What `scoped` does to a rule's characters is: replace the host condition, append the marker condition if it is not among the others. |
| `HostRewrite.ScopedMeaning` | app/routing.py:195-231 | For every conjunction with at most one host term and any number of hosts, the rewritten text, parsed by Traefik's grammar, matches a request iff its host is listed, all other conditions hold and it carries the marker header, except that the header is not asked for exactly when no condition is the marker but one contains its text. |
| `HostRewrite.DropMarkersText` | app/routing.py:261 | The two textual replacements together drop every marker condition of a conjunction, except the last one of a rule made only of markers. |
| `HostRewrite.UnscopedRefines` | app/routing.py:260-263 | What `unscoped` does to a rule's characters, as an operation on its conditions. |
| `HostRewrite.UnscopedMeaning` | app/routing.py:234-264 | The un-scoped text matches iff the host is listed and the non-marker conditions hold; it still asks for the marker exactly when the rule was nothing but markers. |
| `RuleLaws.ScopedLastHostsWin` | app/routing.py:149-164 | Scoping with one host list and then another is scoping with the last: adding and removing a domain are the same operation, and the rewrite is idempotent. |
| `RuleLaws.UnscopedOfScoped` | app/routing.py:234-249 | `unscoped(scoped(r)) == unscoped(r)` if and only if the rule is not made only of markers. |
| `RuleLaws.UnscopedIdempotent` | app/routing.py:249 | Un-scoping twice is un-scoping once if and only if the rule is not made only of markers (the documentation says always). |
| `RuleLaws.NestedMarkerExample` | app/routing.py:227-228 | A concrete rule and request for that exception: a scoped rule with a negated marker answers an unmarked request. |
| `RuleLaws.EarlierTextBreaksRule` | app/routing.py:195-264 | When a quoted argument in front of the host term contains `Host(`, neither the scoped rule nor, where the rule holds no marker text, the un-scoped one parses, so the router answers nothing. |
| `Labels.ScopedInOrder` | app/routing.py:223-231 | The loop over a label block in a given order computes the order-sensitive walk it is specified by. |
| `Labels.WalkIsScoped` | app/routing.py:223-231 | Walking the labels in order gives the order-free result if and only if no foreign priority label comes after the rule it belongs to. |
| `Labels.SortedWalkIsScoped` | app/routing.py:223-231 | A block sorted by name, as `docker inspect` prints it, always satisfies that condition. |
| `LabelLaws.ScopedLabels` | app/routing.py:223-231 | A scoped block label by label: every router rule is scoped and its priority is 100, every other label is as it was, and nothing else is added. |
| `LabelLaws.UnscopedLabels` | app/routing.py:250-264 | An un-scoped block label by label: every rule is un-scoped, a priority goes exactly when it is 100 and its router's rule mentions the marker, nothing else changes. |
| `LabelLaws.StripTwice` | app/sablier.py:62-78 | Stripping an enrolment twice is stripping it once. |
| `LabelLaws.StripOfEnrolled` | app/sablier.py:62-109 | `_strip(enrolled_labels(L)) == _strip(L)`: un-enrolling restores what was there, middleware chains included. |
| `LabelLaws.EnrolledTwice` | app/sablier.py:81-109 | Enrolling is idempotent and does not depend on an enrolment already there. |
| `LabelLaws.EnrolmentShows` | app/sablier.py:118-123 | `is_enrolled` sees an enrolment that was written and not one that was stripped. |
| `LabelLaws.ChainExactly` | app/sablier.py:62-109 | A router's chain after enrolling is the app's middleware followed by every other middleware it named, in order; after stripping, the others alone; a chain that names no other is dropped by both. |
| `LabelLaws.OthersLeftAlone` | app/sablier.py:62-109 | Outside the chains, stripping and enrolling touch only the two discovery labels and those of the app's own middleware. |
| `LabelLaws.EnrolmentSays` | app/sablier.py:87-100 | The values of the discovery labels and of the plugin middleware an enrolment writes. |
| `LabelLaws.EnrolmentNames` | app/sablier.py:87-100 | An enrolment writes those six labels and no other. |
| `LabelLaws.HalvesCommute` | app/routing.py:420-424 | The enrolment half and the routing half of a label write can be done in either order, for all four combinations. |
| `LabelLaws.ScopedTwice` | app/routing.py:203 | Scoping a whole block is idempotent. |
| `LabelLaws.UnscopedTwice` | app/routing.py:249 | Un-scoping a whole block is idempotent if and only if no router's rule is made only of markers. |
| `LabelLaws.UnscopedOfScopedBlock` | app/routing.py:234-264 | `unscoped(scoped(L)) == unscoped(L)` for a block if and only if no rule is only markers and no scoped router had a priority of its own. |
| `LabelLaws.WritesConverge` | app/routing.py:420-426 | Applying a label write to its own output changes nothing, so a container that carries it is not redeployed. |
| `Forwarding.BuiltRouters` | app/routing.py:85-109 | Exactly the fronted apps have a generated router, it lists all their hosts, and none has a priority label. |
| `Forwarding.BuiltRouter` | app/routing.py:103-108 | A fronted app's router has all four labels with their values: rule, entry point, the host's own service, gzip. |
| `Forwarding.BuiltOnly` | app/routing.py:81-108 | Apart from those routers the static host's block is what it was, without generated labels of an earlier sync. |
| `Forwarding.BuiltNone` | app/routing.py:99-102 | Without a service name only the generated labels are taken away. |
| `Forwarding.ServiceExactly` | app/routing.py:71-78 | The service name is the one the port label names, and an empty name is none. |
| `Forwarding.BuildTwice` | app/routing.py:85-109 | Deriving the routers from their own output changes nothing, so a sync with nothing new restarts nothing. |
| `Forwarding.DerivedWorldIsSettled` | app/routing.py:582-583 | The derived routers next to blocks written by `scoped`/`unscoped` satisfy the hypotheses of the routing theorems below. |
| `Forwarding.ClientReachesStaticHost` | app/routing.py:58-68 | A client's unmarked request for a fronted app can be picked by the static host's router for that app and by no other router. |
| `Forwarding.MarkedCopyReachesBackend` | app/routing.py:66-68 | The marked copy is sure to reach the app's own container if and only if that is running, some router it was written from has no other condition the request fails, and the static host's rule is shorter than the backend priority; without one of the first two, or past that length, it returns to the static host. |
| `Forwarding.BackendTakesExactly` | app/routing.py:221-231 | A container has a router for the marked copy if and only if it runs and the labels it was written from held a rule whose conditions other than the host the request meets. |
| `Forwarding.LongRuleExample` | app/routing.py:103-108 | Three hostnames of ordinary length make a rule longer than the backend priority. |
| `Forwarding.AtMostTwoHops` | web/server.py:268-293 | Whatever containers do between hops, no request is forwarded twice: a chain has at most two hops, and a second one at the static host is answered 503 with the down header and forwards nothing. |
| `Forwarding.ForwardEnds` | web/server.py:1016-1027 | End to end: a forwarded request ends at its app's container if that runs and has a router for it, else at the static host, whose answer is 503 with the down header and which forwards nothing. |
| `LabelLanding.Container.ConfirmLabelsLanded` | app/routing.py:296-375 | Under any behaviour of the orchestrator: True iff every operative label was seen (or there are none), the first sighting ends the wait, at most `LABEL_ATTEMPTS - 1` further deploys, and exactly that many when it gives up. |
| `LabelLanding.SeenExactly` | app/routing.py:282-294 | Labels count as landed on a container that has labels and carries every wanted router, plugin-middleware and discovery label at its wanted value, and nothing else matters. |
| `LabelLanding.Platform.ApplyBackendLabels` | app/routing.py:378-484 | One read, one write and one deploy, exactly when the wanted block differs from the live one; an excluded app is un-enrolled whatever its row says. |
| `LabelLanding.SleeperGoesThroughPlugin` | app/routing.py:400-424 | What is written for an app that may sleep puts its middleware first in every chain that names another, fronted or not. |
| `LabelLanding.Platform.ScopeBackends` | app/routing.py:632-642 | Writes precisely the deployed fronted apps whose labels change, in order. |
| `LabelLanding.Platform.UnscopeBackends` | app/routing.py:658-676 | Writes precisely the unfronted apps that still carry the marker and leaves the others alone. |
| `LabelLanding.Platform.Sync` | app/routing.py:550-680 | With a service name and a verified redeploy that carries what was stored, no app is scoped before its router is live; an unverified one leaves every backend untouched; unchanged labels redeploy nothing. |
| `LabelLanding.CarriesMarkerExactly` | app/routing.py:658-668 | The un-scoping pass recognises an app by a router rule that mentions the marker, and by no other label. |
| `LabelLanding.NoServiceNoRouters` | app/routing.py:99-102 | Without a service name the routers are taken away, not left: the reason `Sync` needs that hypothesis. |
| `LabelLanding.SettledIsUnchanged` | app/routing.py:425-426 | A container that already carries what a write would leave is never deployed again. |
| `LabelLanding.UnscopedLosesMarker` | app/routing.py:658-668 | The repair pass converges: what it writes no longer carries the marker it looks for. |
| `LabelLanding.ExcludedStaysAwake` | app/routing.py:400-420 | No write enrols an app that must never sleep, and an enrolment it carries is taken off. |
| `LabelLanding.Platform.Reconcile` | app/sablier.py:126-212 | One repair sweep: excluded apps that carry an enrolment lose it, sleepers whose container is gone are deployed again and those without their enrolment get it; nothing else is written or deployed. |
| `LabelLanding.SweepRepairsDrift` | app/sablier.py:145-202 | For a container with labels, the sweep acts if and only if its enrolment is not what the exclusion list asks for and the platform takes the write. |
| `LabelLanding.RepairsOnce` | app/sablier.py:163-202 | A repair that has landed is not made again. |
| `LabelLanding.SyncedWorldIsSettled` | app/routing.py:550-680 | Once the synced routers are live and the written labels have landed, routing is settled, so the forwarding theorems apply. |
| `StaticHost.Host.Poll` | web/server.py:493-508 | At most ceil(budget/delay) forwards, the first usable answer ends it, every other upstream is closed. |
| `StaticHost.OutcomeRead` | web/server.py:394-428 | By status and header alone: which answers are handed straight on, which end the wake loop, and which of the two budgets applies. |
| `StaticHost.Host.Proxy` | web/server.py:446-526 | At most one wake and ceil(budget/delay)+2 forwards; which exit is taken and with which answer; no intermediate answer could have been handed on; the only upstream left open is the one behind the answer. |
| `StaticHost.Host.WaitForIt` | web/server.py:489-526 | After the first forward: what is returned early is never down, a gateway error or a 500; only the last forward after the whole budget stands as it is. |
| `StaticHost.Host.Release` | web/server.py:967-978 | The upstream behind a replaced answer is closed, once. |
| `StaticHost.Host.NotFound` | web/server.py:981-1012 | The bundle's own answer, else the backend's, else a plain 404; an upstream whose answer is replaced is closed. |
| `StaticHost.OwnNotFoundExactly` | web/server.py:981-1012 | The bundle's own answer to a path nobody has, by the files it holds: its index for a single-page app, its 404 page for a caller that wants a page. |
| `StaticHost.FileForExactly` | web/server.py:1056-1061 | The file a path names: itself, or under a trailing slash the first index file there is. |
| `StaticHost.Host.Resolve` | web/server.py:1016-1079 | Every branch: the marked 503, an unhosted name, the first redirect that applies, files, the bundle's own answers, and for a forwarded request the last forward's answer, the 502, or, for a read answered 404, exactly the bundle's page with its path and status; a forward is made exactly when nothing before it answers, and the only upstream left open is the one behind the answer. |
| `Redirects.CompileRule` | web/redirects.py:30-46 | The scan over `*` and `:name` produces the pattern's tokens. |
| `Redirects.TokensExactly` | web/redirects.py:27-46 | The tokens told by the text alone: written out they are the pattern, names are identifiers, and none could have been longer. |
| `Redirects.RunDecides` | web/redirects.py:38-46 | Sound and complete for every path, newlines included: the matcher succeeds if and only if some instantiation of the pattern is the path, or the path up to a final newline. |
| `Redirects.RunGreedy` | web/redirects.py:38-46 | The captures returned are the greediest of all instantiations. |
| `Redirects.CapturesUnique` | web/redirects.py:9-14 | When every `:name` is followed by `/` or the end and `*` is last, the instantiation is unique, unless the pattern ends in a `:name` and the path in a newline. |
| `Redirects.ExpandReproduces` | web/redirects.py:49-50 | Substituting a match's captures back into a pattern without `*` reproduces the path. |
| `Redirects.ExpandExactly` | web/redirects.py:49-50 | Substitution replaces exactly the names that have a value, once, and leaves everything else as written. |
| `Redirects.Match` | web/redirects.py:53-81 | The lowest-indexed rule that applies decides location and status; a malformed or non-compiling one is skipped. |
| `Redirects.AppliesExactly` | web/redirects.py:60-74 | An entry applies when it is a rule with both ends, its captures have distinct names and the path is an instance of its pattern. |
| `Redirects.StatusExactly` | web/redirects.py:79-80 | A stored 301, 302, 307 or 308 is kept; anything else, or nothing, is 301. |
| `Redirects.Validate` | app/routers/redirects.py:60-87 | Accepted iff no rule has a complaint, then stored trimmed and in order; refused at the first rule with one, with that reason. |
| `Redirects.AcceptedFills` | app/routers/redirects.py:75-82 | For an accepted rule and any path it matches, no placeholder of the target is left unsubstituted. |
| `Redirects.BindingsExactly` | web/redirects.py:70-76 | Each captured name stands for the text its own group took. |
| `Redirects.AcceptedCanApply` | app/routers/redirects.py:60-87 | An accepted rule applies to some path if and only if no two of its captures have one name; validation does not ask. |
| `Redirects.AcceptedTwiceNamed` | app/routers/redirects.py:60-87 | A concrete accepted rule that names one capture twice. |
| `Tables.MergeIsFold` | app/analytics.py:500-548 | Folding a batch by itself and merging it into the table is folding it straight into the table, for any associative combination. |
| `Ingest.Rollups.IngestOnce` | app/analytics.py:395-560 | A pass counts exactly the fresh lines of its window, keeps the tables equal to the tables of everything counted, and moves the cursor to the furthest line read. |
| `Ingest.Rollups.Upsert` | app/analytics.py:500-548 | The upserts of a pass keep every table exact, and millisecond sums within half a millisecond per pass. |
| `Ingest.Collect` | app/analytics.py:412-498 | The in-memory loop computes the tables of the pass's fresh lines, the horizon and the count. |
| `Ingest.FreshExactly` | app/analytics.py:221-275 | A pass counts exactly the hosted lines past its cursor whose marker is not `1` and whose router is empty, or whose app is not fronted, or whose router is the static host's for the app; each as seen at its own time if that can be read. |
| `Ingest.ExchangeCountsOnce` | app/analytics.py:221-275 | One client request of a fronted app, with any number of forwards the log gives away beside it, counts once, as the client's own leg. |
| `Ingest.MillisNear` | app/analytics.py:523 | Rounding each pass's sum keeps the stored milliseconds within half a millisecond per pass of the true sum. |
| `Ingest.Conservation` | app/analytics.py:473-494 | Per app and day: requests = summed visitor hits = summed agent hits, and latency counts = requests that had a duration. |
| `Ingest.RequestsExactly` | app/analytics.py:471-560 | Requests, 4xx and 5xx of an app and day are the counts of its entries with such a status; the three tables have the same rows. |
| `Ingest.HitsExactly` | app/analytics.py:471-560 | A visitor's and an agent's hits are the counts of its entries. |
| `Ingest.FirstAndLast` | app/analytics.py:471-560 | A visitor's first day is the least of its days, an app's last sighting the latest of its times. |
| `Ingest.MillisExactly` | app/analytics.py:471-560 | An app's milliseconds on a day are its durations added up, before rounding. |
| `Ingest.CursorMonotone` | app/analytics.py:449-450 | Over any passes the cursor never moves back. |
| `Ingest.CountedAtMostOnce` | app/analytics.py:460-462 | Whatever windows the passes get, in any order, no line is counted in two of them. |
| `Ingest.SplitInvariant` | app/analytics.py:395-398 | Any passes over overlapping windows without gaps, cut where stamps strictly grow, count the same requests as one pass over the whole and leave the same cursor. |
| `Ingest.SplitTables` | app/analytics.py:500-534 | So every table but last-seen, and the unrounded milliseconds, are those of one pass. |
| `Ingest.SplitLastSeen` | app/analytics.py:496-498 | And last-seen too when the stamps of the counted requests parse; one that does not takes its own pass's clock. |
| `Percentile.PercentileFromHist` | app/stats.py:138-152 | Nothing for an empty histogram, else the edge of the first bucket at which the cumulative count reaches the target. |
| `Percentile.ReportedBucketHolds` | app/stats.py:139-141 | For 0 < p <= 1 and any samples, the true percentile lies in the reported bucket: at most its edge and above the edge before it. |
| `Percentile.ReportMonotone` | app/stats.py:138-152 | A higher percentile never reports an earlier bucket or a lower value. |
| `Percentile.TableIsHist` | app/stats.py:155-170 | The stored latency table summed over any days is the histogram of the counted requests' durations. |
| `Percentile.HistOfRows` | app/stats.py:162-167 | The per-app list holds each row's count at its bucket, zero elsewhere, and ignores buckets out of range. |
| `RagStore.Store.StoreContent` | rag/store.py:132-154 | Writes the content and its chunks once; a second store of the same hash changes nothing. |
| `RagStore.Store.Attach` | rag/store.py:157-168 | Points the document, if it is there, and takes a reference on the content, if it is there. |
| `RagStore.Store.Delete` | rag/store.py:206-230 | Deletes each id that names a document when its turn comes, releases its content, and reports how many. |
| `RagStore.Store.DropChunks` | rag/store.py:84-86 | Deleting a content's chunks fires the index trigger for each of them. |
| `RagStore.StoredAgrees` | rag/store.py:138-154 | Storing keeps the index equal to the chunk rows, rowids increasing and each content's ords exactly 0..count-1. |
| `RagStore.StoredTexts` | rag/store.py:147-153 | A first store writes exactly the given texts, in order. |
| `RagStore.DeletedAgrees` | rag/store.py:206-230 | Any delete keeps the same agreement. |
| `RagStore.AttachExact` | rag/store.py:157-168 | Attaching keeps every count exact if and only if the document exists unattached and the content is there, or neither exists. |
| `RagStore.DeletedExact` | rag/store.py:219-228 | Any delete keeps every count equal to the number of documents pointing at the content, with none dangling. |
| `RagStore.DeleteSpares` | rag/store.py:221-223 | Deleting documents leaves every other document, its content and its chunks as they were. |
| `RagStore.LeakIsForever` | rag/store.py:219-228 | A count that is too high is never repaired: no later delete frees that content. |
| `RagRuns.RunAgrees` | rag/store.py:77-86 | On every interleaving of ingests and deletes the index mirrors the chunk rows, every chunk's hash has a content, and each content's ords are complete. |
| `RagRuns.StepExact` | rag/server.py:83-115 | A step of any run keeps every reference count exact if and only if it is not an attach of a document or a content that has gone. |
| `RagRuns.QuietRunIsExact` | rag/server.py:83-115 | From an empty store, any run with no delete between an ingest's finding of its content and its attach, and with the document still there, ends with every count exact. |
| `RagRuns.DeleteAfterCheckLosesContent` | rag/server.py:83-115 | Why the first condition is needed: a delete in between leaves a ready document with nothing behind it. |
| `RagRuns.DeleteBeforeAttachLeaks` | rag/server.py:115 | Why the second is: a document deleted before its attach leaves content no delete ever frees. |
| `Similarity.EncodedIsUnit` | rag/embed.py:41-47 | A row divided by its norm has length one, and an all-zero row stays zero. |
| `Similarity.LevelExactly` | rag/embed.py:50-60 | A component within one is stored at the nearest of 255 levels, one beyond it at the last. |
| `Similarity.SimilarityError` | rag/embed.py:50-73 | Each score is within half the query's L1 norm of 127 times the true cosine. |
| `Similarity.OrderKept` | rag/embed.py:50-73 | Chunks whose cosines differ by more than the query's L1 norm over 127 keep their order. |
| `Similarity.RankingCanChange` | rag/embed.py:51-54 | Two unit vectors for which quantised and true ranking disagree, though the documentation says the ranking is unaffected. |
| `RagSearch.HashToDoc` | rag/store.py:270-274 | The contents of the ready documents, each with the first found document that holds it. |
| `RagSearch.Fuse` | rag/store.py:299-302 | The fused map holds exactly the ranked chunks with their summed reciprocal ranks. |
| `RagSearch.ScoreIsReciprocalRank` | rag/store.py:299-302 | The fused score of a chunk is the sum, over the rankings that name it, of one over the constant plus its place counted from one. |
| `RagSearch.BothBeatOne` | rag/store.py:299-303 | A chunk both rankings name beats one that only one names exactly when its two reciprocals add up to more; places up to the constant always do. |
| `RagSearch.AheadScoresHigher` | rag/store.py:254-262 | A chunk ahead of another in every ranking naming the other scores strictly higher. |
| `RagSearch.Top` | rag/store.py:303 | At most k distinct chunks, descending, and no left-out chunk beats a kept one. |
| `RagSearch.Search` | rag/store.py:263-314 | Results are distinct, at most k, descending, complete up to k, each a chunk of a named ready document. |
| `Chunker.SplitParagraphs` | rag/chunk.py:16-18 | The loop gives the stripped non-empty pieces between blank lines. |
| `Chunker.SplitBlankExactly` | rag/chunk.py:16-18 | The text is cut at each blank line as early as it comes: joined by them the pieces are the text, and no piece holds one. |
| `Chunker.ParagraphsKeepInk` | rag/chunk.py:16-18 | The paragraphs hold every non-blank character of the text, in order, once each. |
| `Chunker.ChunkBlocks` | rag/chunk.py:41-72 | The nested loops give the budget's worth of all the windows, and the flag exactly when the text exceeds the budget or the budget is spent before the last block is looked at. |
| `Chunker.FlagIsHonest` | rag/chunk.py:29-31 | No flag: every window is there. Flag: the budget is exactly spent. Never more than the budget. |
| `Chunker.FlagWithoutLoss` | rag/chunk.py:42-44 | The flag can be up with nothing lost: an empty block after a full budget. |
| `Chunker.InOneChunk` | rag/chunk.py:49-51 | Every stretch of a paragraph of at most target-step+1 characters is whole in one window, which carries its block's page and heading. |
| `Chunker.ChunkFits` | rag/chunk.py:57-61 | No chunk is empty or longer than the target. |
| `Deploys.VerifyDeploy` | app/autoupdate.py:163-223 | Polls to the first round that shows the container replaced, on target and well, or gives the reason the last sighting supports. |
| `Deploys.VerifiedExactly` | app/autoupdate.py:190-208 | Verified with an image just when that is the image of the first round that saw a container started later than before, on the target where there is one, running and not unhealthy. |
| `Deploys.ReasonExactly` | app/autoupdate.py:210-223 | Otherwise the reason follows from the last container seen: not a later one, a later one on another image, or a later one not well. |
| `Deploys.NothingNewIsRolledBack` | app/autoupdate.py:202-219 | When no round shows a container started later than before, the verdict is rolled back, whatever runs and however well. |
| `Deploys.Control.CheckAndUpdate` | app/autoupdate.py:346-419 | One pass: an error, a confirmed no-op, or a deploy with its verdict; the row changes only on a verified deploy. |
| `Deploys.Control.ApplyAndSettle` | app/autoupdate.py:298-343 | A first deploy: the digest is cleared, and written again only after verification. |
| `Deploys.Control.Run` | app/routers/refresh.py:128-152 | A queued deploy never raises and is recorded as passed only on an affirmative verification. |
| `Deploys.Control.Get` | app/deploys.py:100-126 | Succeeded or failed by the outcome; without one, running for twenty minutes and unknown after; nothing for another app's deploy. |
| `Deploys.IssuesUnlessConfirmed` | app/autoupdate.py:381-398 | A deploy is issued exactly when the tag could be pulled and the container was not confirmed to run what the row records; always when it runs something else. |
| `Deploys.IssuesWatchedTag` | app/autoupdate.py:370-371 | What a pass deploys is the row's image at the watched tag, or at `latest` where none is watched. |
| `Deploys.PassesExactly` | app/autoupdate.py:163-208 | A pass passes if and only if the tag could be pulled and the container ran the target before it with the digest on record, or some round found it replaced, on target and well; with a target, that image was seen running. |
| `Deploys.SightingNeedsTarget` | app/autoupdate.py:384-389 | That guarantee holds of every pass if and only if the target image could be inspected (the comment says such a pass reports a failure). |
| `Deploys.NoTargetAnyImage` | app/autoupdate.py:202-203 | Without a target the verdict and what is recorded do not depend on which image came up. |
| `Deploys.WrongDigestHeals` | app/autoupdate.py:324-337 | A digest recorded by a first deploy may name another image than the verified one; the next pass that sees another image running deploys whatever is recorded. |
| `Deploys.FailedIsRetried` | app/autoupdate.py:404-409 | After an update that was not confirmed nothing is recorded, and the next pass that reads the same tag deploys again. |
| `Deploys.DroppedDeployFails` | app/autoupdate.py:399-413 | A pass whose deploy was dropped fails and leaves the row alone. |
| `Deploys.DroppedFirstDeploy` | app/autoupdate.py:298-343 | A first deploy that was dropped fails and leaves the digest cleared. |
| `Deploys.DigestWasSeen` | app/autoupdate.py:404-413 | Over every run: a digest on record was there from the start, was edited in, or belongs to a pass that read it and saw a deploy of that app land. |
| `Deploys.SucceededRan` | app/deploys.py:84-125 | Over every run with tag moves, dropped deploys, rollbacks, recycles and failed writes: a deploy that reads succeeded was recorded by its own task on inspections that showed the image it names running, its target where it had one, and its row has not changed since. |
| `Deploys.OutcomeIsFinal` | app/deploys.py:84-126 | Over every run: a recorded outcome stays as it is until its row is trimmed, and a deploy whose task was lost never gets one. |
| `Locks.LockTable.AppLock` | app/locks.py:29-35 | One lock an app, made on first use and the same ever after; different apps never share one. |
| `Locks.EntryOrdered` | app/locks.py:17-19 | Every entry point takes locks in the order app, routing, static host, gives all back and re-enters none. |
| `Locks.EntryChanges` | app/locks.py:15-20 | What each entry point changes: its own app, the static host where routes change, nothing for a refused upload. |
| `Locks.NoDeadlock` | app/routing.py:607-611 | No run of any requests reaches a circular wait on locks. |
| `Locks.NeverStuck` | app/locks.py:17-19 | In every reachable state some task can step if and only if some task is unfinished. |
| `Locks.ChangesExclusive` | app/locks.py:1-20 | What the app locks are for: in no reachable state are two tasks about to change the same app, unless one of them is the hourly sweep. |
| `Locks.SweepOverlaps` | app/autoupdate.py:503-512 | The sweep deploys without the app's lock, so it and a refresh can be at the same app at once. |
| `Locks.StepShortens` | app/locks.py:10-15 | Each step taken is one fewer to take, so the requests taken in all finish. |
| `Locks.EnrollingTheHostDeadlocks` | app/autoupdate.py:434-435 | Were the static host not excluded from enrolment, a refresh of it and a route write could wait for each other for ever. |
| `Cron.Field` | app/cronmatch.py:13-36 | Succeeds exactly on the field grammar and gives exactly the union of the stepped ranges, never empty. |
| `Cron.Parse` | app/cronmatch.py:39-49 | Succeeds exactly on five valid fields with whitespace, as Python's `split` takes it, around and between, each the union of its ranges. |
| `Cron.Due` | app/cronmatch.py:56-72 | Due exactly when minute, hour and month match and the day does, by either day field when both are restricted. |
| `Cron.DayRule` | app/cronmatch.py:58-70 | Which calendar days match, with weekdays counted from Monday by the clock and from Sunday by the field: all, by the one field that is restricted, or by either. |
| `Cron.DuePerDay` | app/cronmatch.py:65-72 | On a day and month the expression admits it is due hours times minutes often, on any other never. |
| `Cron.SpelledOutStar` | app/cronmatch.py:60-61 | A day-of-month field that names every day without being a bare star makes any day of the week match. |
| `BundleSwap.Site.StageAndSwap` | app/frontends.py:97-129 | Wherever a file operation raises or the process ends, with relative names a reader finds the old site, none, or the complete new one, in that order; with any names, each file is where its name leads. |
| `BundleSwap.Site.Swap` | app/frontends.py:119-128 | How far each file operation of the swap gets: the whole state after any number of them. |
| `BundleSwap.Site.DeployBundle` | app/frontends.py:75-129 | A refused bundle touches nothing; an accepted one whose names stay inside is published whole or leaves the old site or none; any other accepted one has its absolute names written where they lead. |
| `BundleSwap.Site.DeployFiles` | app/frontends.py:132-177 | Inline files are checked before anything is written and then published whole, and nothing is written outside. |
| `BundleSwap.Check` | app/frontends.py:47-61 | Accepts exactly archives that are not empty, not too many, not too large and with no absolute or climbing name. |
| `BundleSwap.UnsafeExactly` | app/frontends.py:54-56 | A name is refused exactly when it starts with a slash of either kind or has `..` between slashes or at an end. |
| `BundleSwap.StripRootExactly` | app/frontends.py:64-72 | The directory taken off is the one every file is or lies below, when some file lies below it. |
| `BundleSwap.UnpackedExactly` | app/frontends.py:99-111 | What is written is every file in the archive's order under its name below that directory, but those with no name left. |
| `BundleSwap.DirHolds` | app/frontends.py:101-111 | The new site has exactly the names given, each with the last content given for it. |
| `BundleSwap.Unwraps` | app/frontends.py:64-72 | Unwrapping takes exactly the one common directory off every file below it, and changes no name when there is none. |
| `BundleSwap.StaysInside` | app/frontends.py:55-104 | Every file of an accepted bundle is written inside the new site if and only if no name has a second slash behind the common directory that is taken off. |
| `BundleSwap.AcceptedCanEscape` | app/frontends.py:55-104 | A family of accepted bundles whose second file is written at an absolute path, into the served directory before any swap when it leads there. |
| `BundleSwap.CleanedInside` | app/frontends.py:155-160 | Inline files all stay inside: their leading slashes come off before the names are tested. |
| `BundleSwap.UnsafePathExactly` | app/frontends.py:154-158 | An inline path is refused exactly when nothing but slashes is in it or it has `..` between slashes or at an end. |
| `Latches.AlertState.CheckOnce` | app/alerts.py:107-339 | One check, cut short anywhere: which messages go out, which rows are written, when the proxy is restarted. |
| `Latches.AlertsSeparated` | app/alerts.py:67-104 | Between two missing-container alerts, the first written down, some written tick recovered or found the app not sleeping. |
| `Latches.AlertsExactly` | app/alerts.py:84-94 | An alert goes out exactly when a sleeping app's container is absent twice running and no alert stands. |
| `Latches.MessagesExactly` | app/alerts.py:67-104 | Every message of a written run by the looks alone: gone at the second absence running of an app that may sleep unless it was reported at the look before, back at the first container after that, nothing else. |
| `Latches.CountIsAbsences` | app/alerts.py:84 | The stored count is the number of consecutive absences. |
| `Latches.UnwrittenAlertRepeats` | app/alerts.py:305-326 | An alert whose row was not written is sent again at once. |
| `Latches.RestartsSeparated` | app/alerts.py:165-189 | Two proxy restarts inside the cooldown, the first written down, are separated by a written check that did not find the plugin definitely missing. |
| `Latches.RestartsExactly` | app/probe.py:213-219 | In a written run the proxy is restarted exactly when the plugin is definitely missing and no restart since it was last not so lies within the cooldown. |
| `Latches.CannotTellForgets` | app/alerts.py:185-189 | One check that cannot tell is enough to restart the proxy again at once. |
| `Latches.UnwrittenRestartRepeats` | app/alerts.py:333-339 | So is a restart that was not written down. |

## Left out

- HostRewrite.ScopedMeaning: rules that are not a conjunction with one host term, such as a top-level `||` or a two-parameter `Host`, are not covered; the rewriting is textual and has no meaning-preserving reading there.
- HostRewrite.UnscopedMeaning: rules with the marker's text inside another condition are not covered; the removal is textual and can take it out of there too.
- HostRewrite.RewriteRefines: matcher arguments are backtick-quoted, as everything the platform and the orchestrator write is; double-quoted arguments are not modelled.
- Forwarding.MarkedCopyReachesBackend: at a rule length of exactly the backend priority Traefik may pick either router, so only the lengths on either side decide.
- LabelLanding.Platform.Sync: that a no-longer-fronted app stays reachable while its static-host router is dropped first is not claimed, since the code does not provide it; nor is scoping outside the sync, which does not look whether the router is live.
- StaticHost.Host.Resolve: reading the host header into an app id, the manifest file and the safe-path check are inputs; response headers, caching and streaming of bodies are not modelled.
- WebSocket dialling and pumping (web/server.py:550-932): plumbing around the same wake loop.
- Redirects.Match: carrying the query string onto a location is a parameter, since it is URL parsing.
- Redirects.ExpandReproduces: patterns with `*` are not read back as targets, because a target writes the tail as `:splat`.
- Ingest.Rollups.IngestOnce: the bot flags of visitors and agents, host resolution, the reading of the log and the stall diagnostics are left out, as is a failure between two statements of one pass.
- Ingest.SplitTables: millisecond sums are compared before rounding; each pass rounds its own sum.
- Percentile.PercentileFromHist: counts and targets are exact numbers rather than floats.
- RagStore.Store.StoreContent: the other columns of a content or chunk are carried along unchanged and not modelled; each locked section is one step.
- RagSearch.Search: the two rankings are inputs, so BM25, the tie order of a sort over scores and the pool limit on their length are not modelled, nor is rounding a score to six places or the truncation report.
- Similarity.SimilarityError: arithmetic is over reals, so float32 rounding is not included.
- Chunker.ChunkBlocks: text is ASCII, and the page limit applied afterwards by the ingest is left out.
- Deploys.IssuesWatchedTag: image references come split into repository and tag; taking them apart (app/autoupdate.py:34-48) is left out.
- Deploys.VerifyDeploy: the inspections of one round are one value with any contents, so they need not be taken at one instant; waiting is counted in rounds.
- Deploys.Control.Run: enrolment and putting the app to sleep after a deploy, the environment sync and the notifications have no part in the verdict and are left out.
- Locks.ChangesExclusive: the deploys that label writes ask for while routes are synced, and entry points that deploy with no lock at all (app/routers/apps.py:886-915), are not among the changes.
- Locks.NoDeadlock: the database connection pool is a second, unordered resource and is not included; early exits of a path are the runs of a path that takes fewer locks.
- Cron.Parse: text is ASCII, where Python's `isdigit` means decimal digits and `split` cuts at the space and at characters 9 to 13 and 28 to 31.
- BundleSwap.Site.StageAndSwap: names are compared as text, so two spellings of one path are two files, and a clash between a file and a directory of one name is an operation that raises; where an absolute name leads is a parameter.
- Latches.AlertState.CheckOnce: the down, stuck-awake, 5xx, router-table and daily-probe alerts follow the same latch pattern and are left out.
- LabelLanding.Platform.Reconcile: the enrolment column it sets and its per-app reports are left out, and the apps and sleepers come in as lists.
- The hourly sweep's loop over apps and the database migrations: loops that call what is modelled here.
- Provisioning, API keys, workflow generation, MCP annotations, the dashboard, document parsing and URL fetching: input and output, text templates and library wrappers.
