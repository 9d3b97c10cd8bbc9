# Verification models of cutting-garden

cutting-garden captures trees of nodes into content-addressed stores and lets
hosts traverse, summarize and mutate plugin sources. This project models the
parts of it that hold real algorithms and state, and proves what they promise.
`dafny verify dfyconfig.toml` checks everything.

| file | what it models |
|---|---|
| `FacetFold.dfy`, `FacetFilter.dfy` | the budgeted walk over a possibly cyclic container graph that folds facet values into histograms; what a filter keeps of them |
| `PeerLink.dfy`, `CaptureSession.dfy`, `SessionProgress.dfy`, `SessionDriver.dfy`, `SessionObjects.dfy` | the capture-serve session: two symmetric JSON-RPC peers, the begin / stream / finish blob protocol, `Serve`'s shutdown decision, as interleaved steps; what can always still happen; the order of a batch and whole sessions; and the mutable objects whose methods take those steps |
| `NodeFraming.dfy`, `NodeAcceptance.dfy`, `Receipt.dfy`, `ReceiptPaths.dfy`, `ReceiptOverSession.dfy` | the hyphence node framing with its printer and two parsers, and what they accept; the receipt tree and the walks that read a receipt back; a receipt written over the session |
| `BulkMutation.dfy` | request validation, the best-effort interpreter, its result lists, observer and temp ids |
| `MemoCache.dfy`, `MemoRefresh.dfy` | the facet and listing caches: entries, refresh machine over a changing source, back-off; what one read or refresh leaves behind |
| `PercentEncoding.dfy`, `UriTemplate.dfy`, `TemplateGrammar.dfy`, `TemplateRoundTrip.dfy`, `TypeResolution.dfy` | URI templates (Level 1 of RFC 6570, section 1.2) in both directions, and which of them reverse; choosing the most specific declared type |
| `CapturePlan.dfy`, `TagAlgebra.dfy`, `LineWriter.dfy` | the capture argument planner, the tag interpreters, the line-splitting writer |
| `Prelude.dfy` | options, results and string search shared by the others |

Code that mutates objects is written as classes and methods with loops, and each
method is proved against a specification function or predicate; the theorems are
lemmas about those. A `char` stands for one byte of a Go string. Plugins,
backends, digests and clocks are parameters: a lister is a function from a
container to a listing or an error, a backend answers its n-th call arbitrarily,
the concurrent machines take any enabled step.

## Findings

Six promises turned out to hold under a condition; each is proved with it, both ways.

- A node survives printing and parsing exactly when its type is non-empty and its
  fields hold none of the separators that follow them and no newline.
- A receipt gives its format back exactly when the format is not empty:
  `formatFromReceipt` treats an empty format as a missing one. This holds however the
  receipt reads; it reads back as it was written exactly when its kind and payload
  references are free of newlines and separators, which nothing checks before writing.
- An op naming a temp id reaches the backend exactly when its create applied and
  its body is not refused: a `delete` with a body fails without a backend call on a
  source that takes none (`bulk_dispatch.go:159-171`).
- A validated request of explicit ops never calls the backend with a nil target. A
  validated sweep does exactly when an uncancelled match has a nil URI: the sweep
  copies the match's URI into the op unchecked (`bulk_dispatch.go:270-275`). If that
  call is a patch that reports a new URI, the engine then takes the string of the nil
  URI (`bulk_dispatch.go:68-69`).
- A tokened cache entry agrees with the source in every run exactly when a token
  never comes back after the node changed. A token per version never does; a token
  that is a hash of the content comes back when the content does.
- A template gives every non-empty binding back exactly when no literal between two
  variables can occur a second time, begun inside itself or inside the escaped value
  after it. A literal with a byte that percent-encoding never emits, such as `/`,
  cannot; nor can `%2f`, since escapes are upper-case; `-` and `%2F` can, so `{a}-{b}`
  and `{a}%2F{b}` lose some bindings. The condition reads only the literal's text.

Receipt types also show one: `KindFromReceiptType` inverts `ReceiptType` except for
the empty kind and for `fs`, whose flat tag it does not take as a kind.

## Model

| member | source | states |
|---|---|---|
| FacetFold.FoldFacets | internal/cutting_garden_plugins/facet_fold.go:83-113 | For every graph, cyclic or shared, the fold ends; `complete` holds exactly when the reachable containers and their child occurrences fit the two limits; a complete fold listed every reachable container without error, and its summary is, for each declared dimension and key, the sum over every matching child occurrence of every reachable container, each listed once; undeclared dimensions never appear; a partial summary is pointwise at most the exact one; a failure means a reachable listing failed or the context was cancelled |
| FacetFold.Fold.Walk | internal/cutting_garden_plugins/facet_fold.go:126-167 | One level of the walk keeps the counters in step with the sets of listed containers and visited occurrences, never passes either limit, stays inside what is reachable, and unless truncated has settled everything below the node |
| FacetFold.Fold.Lift | internal/cutting_garden_plugins/facet_fold.go:171-185 | A lifted child adds exactly its own facet values under declared dimensions, counted with repetition, and leaves the rest |
| FacetFold.ClosedCoversReachable | internal/cutting_garden_plugins/facet_fold.go:126-167 | A set of containers that holds the root and every container its members list holds all that is reachable |
| FacetFold.BudgetByReachSet | internal/cutting_garden_plugins/facet_fold.go:14-17 | The budget is met exactly when the reachable set and its child occurrences fit the limits |
| FacetFold.WalkedIsExact | internal/cutting_garden_plugins/facet_fold.go:126-167 | A walk that settled all it reached within the limits has the exact histogram of the whole reachable graph |
| FacetFold.ChildOrderBudget | internal/cutting_garden_plugins/facet_fold.go:126-167 | Whether a fold is complete does not depend on the order in which children are listed |
| FacetFold.ChildOrderIrrelevant | internal/cutting_garden_plugins/facet_fold.go:126-185 | Two exact summaries of graphs that differ only in child order are equal |
| FacetFilter.DrillDown | internal/cutting_garden_plugins/facet.go:347-385 | Of two complete folds of one graph, the second narrowed by the plain predicate d = k: the count of k under d is the same, and no other count is larger |
| FacetFilter.NarrowedWeight | internal/cutting_garden_plugins/facet.go:362-385 | Under one more plain predicate exactly the children that list its value still count, each as before |
| FacetFilter.UnfilteredWeight | internal/cutting_garden_plugins/facet.go:347-354 | The empty filter keeps every child |
| FacetFilter.NarrowingLowers | internal/cutting_garden_plugins/facet.go:343-354 | No further predicate, of any kind, raises a count |
| FacetFilter.CountsRepetitions | internal/cutting_garden_plugins/facet_fold.go:171-185 | A child counts for a value as often as it lists it |
| FacetFilter.BucketsOfKey | internal/cutting_garden_plugins/facet_date.go:51-57 | A key lies in exactly the date buckets that are the key itself or end before one of its hyphens |
| FacetFilter.BucketOrder | internal/cutting_garden_plugins/facet_date.go:45-57 | Lying in a bucket is a partial order |
| FacetFilter.DayInMonth | internal/cutting_garden_plugins/facet.go:356-361 | 2026-08 takes 2026-08-15 and not 2026-081 |
| FacetFilter.BucketIsTruncation | internal/cutting_garden_plugins/facet_date.go:36-57 | A date bucket takes exactly the dates at least as fine that are coarsened to it |
| FacetFilter.FoldsExactly | internal/cutting_garden_plugins/facet.go:374-377 | Case folding tells keys apart exactly when they differ by more than the case of letters |
| PeerLink.LinkedCall | internal/capture_serve/peer.go:192-238 | Registering an id and sending the request keeps the link: what one side sent is what the other read and has yet to read, requests in fresh increasing ids |
| PeerLink.LinkedRead | internal/capture_serve/peer.go:264-326 | Reading a datagram, delivering a response or queueing a request, keeps the link in both directions |
| PeerLink.LinkedFinish | internal/capture_serve/peer.go:346-387 | Answering the request in service keeps the link: every response sent is the recorded answer to its id |
| PeerLink.Correlated | internal/capture_serve/peer.go:192-238 | An answered call holds what the other handler returned for the one request sent under its id |
| PeerLink.ServedInOrder | internal/capture_serve/peer.go:339-344 | Requests are served first in, first out and at most once, in the order the other side sent them |
| SessionObjects.PeerEnd.StartCall | internal/capture_serve/peer.go:192-214 | The call gets the next id, is pending before its request is in the other inbox, and nothing else changes |
| SessionObjects.PeerEnd.EndCall | internal/capture_serve/peer.go:204-237 | Whatever ends the wait, the id is no longer pending and its answer, if any, is taken |
| SessionObjects.PeerEnd.Deliver | internal/capture_serve/peer.go:315-326 | A response goes to the call pending under its id, which stops being pending; an unmatched one changes nothing |
| SessionObjects.PeerEnd.ReadLoop | internal/capture_serve/peer.go:264-310 | The loop reads until it would block, one datagram at a time |
| SessionObjects.ReadAllLinked | internal/capture_serve/peer.go:264-310 | Reading until blocked keeps the link and loses no datagram |
| SessionObjects.ReadAllQueues | internal/capture_serve/peer.go:299-302 | Everything read that is no response is queued, in order, exactly once |
| SessionObjects.ReadAllRoutes | internal/capture_serve/peer.go:315-326 | Each new answer was read and belongs to a call that was waiting for it and no longer is |
| SessionObjects.PeerEnd.NextRequest | internal/capture_serve/peer.go:339-344 | The oldest queued request is served next |
| SessionObjects.PeerEnd.EndServe | internal/capture_serve/peer.go:346-387 | A served request is answered under its id, a notification is not |
| SessionObjects.OrchBlobHandler.Begin | internal/capture_serve/orchestrator.go:106-137 | Begin is refused while a blob is open; otherwise it opens exactly one, under a handle one above the last; a failed pipe uses up its handle |
| SessionObjects.OrchBlobHandler.StartFinish | internal/capture_serve/orchestrator.go:150-159 | Finish removes its handle from the table before it waits, whether or not it was open |
| SessionObjects.OrchBlobHandler.EndFinish | internal/capture_serve/orchestrator.go:161-170 | Finish answers the joined commit's {id, size}, or an error for an unknown handle, a failed commit or an ended session |
| CaptureSession.InvStep | internal/capture_serve/orchestrator.go:106-171 | Every step of either process keeps the session invariant: links, open table, pipes, writers, commits and `Serve`'s flags |
| CaptureSession.RunInv | internal/capture_serve/peer.go:264-387 | The invariant holds in every state of every schedule |
| CaptureSession.OneOpenBlob | internal/capture_serve/orchestrator.go:106-125 | At most one blob is open in every schedule |
| CaptureSession.HandlesNeverReused | internal/capture_serve/orchestrator.go:115-118 | New handles are above all earlier ones, and no two begin calls are answered with the same handle |
| CaptureSession.ResponsesMatchCalls | internal/capture_serve/peer.go:192-238 | In every schedule and both directions a response reaches only the call that issued its id |
| CaptureSession.WriteRefinesDest | internal/capture_serve/server.go:169-196 | A successful protocol write returns exactly the {id, size} the destination gives for the writer's bytes, and the destination holds those bytes |
| SessionProgress.WriteCanSucceed | internal/capture_serve/server.go:169-196 | For all bytes the destination takes there is a schedule in which the write succeeds |
| SessionProgress.WriteFrom | internal/capture_serve/server.go:169-196 | From every quiet state a further write can succeed with what the destination answers, which leaves the session quiet, no blob open and the batch where it was |
| SessionProgress.WritesCanSucceed | internal/capture_serve/orchestrator.go:106-171 | So any sequence of writes can succeed one after the other, under consecutive handles, stored in that order |
| SessionDriver.BatchInOrder | internal/capture_serve/orchestrator.go:37-57 | In every schedule a batch is asked for only after initialize was granted, and the shutdown is sent only after the batch was |
| SessionDriver.SessionCanSucceed | internal/capture_serve/orchestrator.go:27-59 | For any batch of writes the destination takes some schedule grants both calls, completes every write, sends the shutdown and ends with `Serve` returning nil |
| SessionDriver.RefusedSession | internal/capture_serve/orchestrator.go:37-42 | A refused initialize can end in nothing else being asked, the socket closed and `Serve` returning the error |
| CaptureSession.OnlyPrefixesStored | internal/capture_serve/server.go:169-196 | Whatever else the destination stored is a prefix of one writer's bytes, from a write that did not succeed |
| CaptureSession.ShutdownOrDrop | internal/capture_serve/server.go:49-78 | `Serve` returns nil only if a shutdown was sent, and the error only if the socket closed without one, even when the close is seen while the notification is still queued |
| SessionProgress.PatientMove | internal/capture_serve/server.go:49-78 | After the close, until `Serve` has returned, some step is enabled that lowers what is left to do, even when the batch handler waits for all its writers: its queue is never full, and once the read loop is done their calls are released |
| SessionProgress.NothingRaises | internal/capture_serve/server.go:60-77 | And no other step, short of starting another write, raises what is left |
| SessionProgress.ServeCanReturn | internal/capture_serve/server.go:49-78 | So from every state after the close the session can run to `Serve`'s return in at most as many steps as are left, the batch handler returning only after its writers |
| SessionProgress.RunAsks | internal/capture_serve/orchestrator.go:27-59 | In every schedule the orchestrator has sent at most as many requests and notifications as its place in the batch allows, three in all; in which order and after which answers is BatchInOrder |
| CaptureSession.ServeWorkFalls | internal/capture_serve/server.go:60-77 | After the close each loop step lowers the remaining work and no other step raises it |
| CaptureSession.ServeReturns | internal/capture_serve/server.go:60-77 | In every schedule at most as many loop steps follow the close as there was work left, and after that many `Serve` has returned |
| NodeFraming.EncodeNode | internal/capture_plugin/node.go:60-96 | Prints boundary, ref lines, type line, boundary, and the body after a blank line with a final newline; no body part for a nil body |
| NodeFraming.ParseNode | internal/capture_plugin/parse.go:36-88 | The buffered parser's result or error, by the specification over split lines |
| NodeFraming.ParseNodeHeader | internal/capture_plugin/stream.go:26-90 | The streaming parser's header or error, by the specification over the unread text, with the reader left at the body |
| NodeFraming.Reader.ReadFramedLine | internal/capture_plugin/stream.go:95-105 | Takes one line off the stream without its newline, or reports its end |
| NodeFraming.ParsersAgree | internal/capture_plugin/stream.go:26-90 | For every input both parsers fail, or both give the same type, refs in order and body bytes |
| NodeAcceptance.AcceptsExactly | internal/capture_plugin/parse.go:36-88 | A text is accepted exactly when it opens with the boundary, closes its header, names a type, and no header line that starts like a reference has another shape; each error is given exactly when its condition is the first to fail; type and refs are those of the header lines, in order, the last type winning |
| NodeAcceptance.RefLineShaped | internal/capture_plugin/parse.go:91-119 | A line is read as a reference exactly when it has the shape `- alias < @digest !type` |
| NodeAcceptance.ParsedShape | internal/capture_plugin/parse.go:91-119 | A reference that was read prints its own line again, up to the `@` of an empty signature |
| NodeAcceptance.PrintedRef | internal/capture_plugin/node.go:60-85 | The printed form of a node with a reference, line by line |
| NodeAcceptance.PrintedBody | internal/capture_plugin/node.go:80-94 | The printed form of a node with a body, which ends in one newline if it did not already |
| NodeFraming.RoundTrip | internal/capture_plugin/node.go:60-96 | Parsing a printed node gives its type, refs and body (newline ensured, nil kept) exactly when its fields are well formed, even for bodies that hold boundary lines |
| NodeFraming.FirstRefKept | internal/capture_plugin/parse.go:36-88 | If a printed node parses at all its first reference is still the first, whatever the other fields hold |
| NodeFraming.EncodingInjective | internal/capture_plugin/node.go:60-96 | Two well-formed nodes with one printed form are equal up to the body's final newline |
| NodeFraming.ReencodeStable | internal/capture_plugin/parse.go:36-88 | A parsed node prints and parses to itself, up to the body's final newline |
| Receipt.KindRoundTrip | internal/capture_plugin/parse.go:146-192 | The kind is read back from a receipt type exactly when it is neither empty nor `fs` |
| Receipt.KindExactly | internal/capture_plugin/parse.go:146-192 | A type string has a kind exactly when it is one of the two prefixes, a non-empty kind, `-v` and a decimal version, and not the flat receipt tag |
| Receipt.WriteReceipt | internal/capture_plugin/receipt.go:82-190 | Success means every value had a JSON form and the nodes of the receipt tree were written, all and in post-order, and the result is the receipt's digest; an error means a proper prefix was |
| Receipt.NodeRefsResolve | internal/capture_plugin/receipt.go:82-190 | Each ref of a node but the payloads' holds the digest of a node earlier in the order, with that node's type and the type's registered signature |
| Receipt.TreeClosed | internal/capture_plugin/receipt.go:82-190 | After any number of writes every ref of every written node resolves to a blob stored before it, also when the node is parsed back from its blob |
| Receipt.RefByAlias | internal/capture_plugin/parse.go:23-30 | The first ref with the alias, or none |
| Receipt.FinishedWroteAll | internal/capture_plugin/receipt.go:82-190 | After a successful write every node of the tree is stored, so it can be read back |
| Receipt.ReceiptWellFormed | internal/capture_plugin/receipt.go:165-190 | The receipt node's fields are well formed exactly when its kind and payload references are |
| Receipt.ReadBack | internal/capture_wire/node_io.go:19-56 | A written receipt reads back as written exactly when its fields are well formed; and whatever it reads back as, walking receipt, identity, invocation recovers the invocation's format, or reports a missing one exactly when it was empty |
| ReceiptPaths.EnvironmentRead | internal/capture_plugin/receipt.go:96-131 | From the digest of a receipt whose fields and plugin types hold no separators, the paths identity, environment and then host, binary or plugin lead to the three records, each under its own name with its own type and value |
| ReceiptPaths.OutcomeRead | internal/capture_plugin/receipt.go:133-165 | The path outcome leads to the time and the stripped record, and on to the plugin's outcome record if and only if there was one |
| ReceiptPaths.InvocationRead | internal/capture_plugin/receipt.go:19-36 | The path identity, invocation leads to the invocation as given, with empty options when it has none |
| ReceiptOverSession.SameDigests | internal/capture_serve/server.go:169-196 | Over the session every node of a receipt gets the digest the in-process writer returns for it, and its blob is stored |
| ReceiptOverSession.SameOrder | internal/capture_plugin/receipt.go:82-190 | When each node is written after the earlier ones have succeeded, the destination stores them in that order |
| ReceiptOverSession.SessionTreeClosed | internal/capture_plugin/receipt.go:82-190 | So every reference but the payloads' resolves to a blob stored before its node |
| ReceiptOverSession.SessionReadBack | internal/capture_wire/node_io.go:19-56 | A receipt sent over the session reads back from the destination, and its format with it, as one written in process |
| BulkMutation.ValidateOps | internal/cutting_garden_plugins/bulk_mutate.go:354-422 | Accepts exactly the op lists that are valid one by one: known kind, one address, temp ids defined once, used only after their definition and only where allowed |
| BulkMutation.Validate | internal/cutting_garden_plugins/bulk_mutate.go:295-347 | Accepts exactly the valid requests: one of sweep or ops, a known atomicity, a valid sweep or op list |
| BulkMutation.ValidExactly | internal/cutting_garden_plugins/bulk_mutate.go:354-422 | A valid list, seen as a whole: every op has one address; only creates give temp ids, each in one container and none under atomicity; no temp id is given twice or used before it is given |
| BulkMutation.ApplyBulkOp | internal/cutting_garden_plugins/bulk_dispatch.go:28-101 | One op's whole effect on the result and the backend is the specification's, whose calls and outcomes CallIsTheOps, OutcomeOfCall, OutcomeOfCreate and NoCallFails read off the op and the backend's reply |
| BulkMutation.ApplyTempCreate | internal/cutting_garden_plugins/bulk_dispatch.go:175-218 | A create with a temp id records its URI only when the backend created it |
| BulkMutation.ApplyBulkOpInOrder | internal/cutting_garden_plugins/bulk_progress.go:27-50 | A cancelled op adds one failed outcome and makes no call; the observer sees exactly the new outcomes with their positions |
| BulkMutation.BulkBestEffortOps | internal/cutting_garden_plugins/bulk_dispatch.go:237-245 | The loop over the ops is the run of the specification, for any backend and cancellation; its result is conserved, and the observer's log is its outcomes |
| BulkMutation.BulkBestEffortSweep | internal/cutting_garden_plugins/bulk_dispatch.go:254-277 | A sweep is the run of its template over the listed URIs, conserved and observed outcome by outcome, or the listing's error |
| BulkMutation.BulkConservation | internal/cutting_garden_plugins/bulk_mutate.go:199-228 | In the engine's finished run Outcomes has one entry per op in request order, and the three lists are exactly its in-order projections by status |
| BulkMutation.CallsInOrder | internal/cutting_garden_plugins/bulk_dispatch.go:28-101 | The backend's log of the run is the ops' calls in order, at most one an op |
| BulkMutation.CallIsTheOps | internal/cutting_garden_plugins/bulk_dispatch.go:55-79 | Every call of the run is its op's own verb, with the op's body and type, on the richest interface the source has, and on the op's own target or container when it names no temp id |
| BulkMutation.OutcomeOfCall | internal/cutting_garden_plugins/bulk_dispatch.go:49-101 | An op that reached the backend failed exactly when its call returned an error, which it then carries; it is patched-nothing exactly for an error-free patch that reports no applied field, deleted exactly for an error-free delete, not-found exactly when a detailed delete says so, and applied otherwise; URI, ref, fields, name and new URI are those of the call, the op and the reply |
| BulkMutation.OutcomeOfCreate | internal/cutting_garden_plugins/bulk_dispatch.go:175-218 | A temp-id create that reached the backend applied exactly when the call returned a URI and no error |
| BulkMutation.NoCallFails | internal/cutting_garden_plugins/bulk_dispatch.go:37-47 | An uncancelled op of a validated request that makes no call has failed, for the first reason that holds: a source that creates no children, a create that did not apply, a delete body the source does not take |
| BulkMutation.ListsPartition | internal/cutting_garden_plugins/bulk_mutate.go:199-228 | Every op of the run is in exactly one of the applied, patched-nothing and failed lists |
| BulkMutation.CancelledIsQuiet | internal/cutting_garden_plugins/bulk_progress.go:27-36 | Once cancelled, the engine's run makes no further backend call and reports each later op as not attempted |
| BulkMutation.TempIdSound | internal/cutting_garden_plugins/bulk_dispatch.go:28-47 | In the engine's run of a validated request an uncancelled op naming a temp id reaches the backend exactly when the one earlier create of that id applied and the op's body is not refused, and then with exactly the URI that create's call returned |
| BulkMutation.ChainSound | internal/cutting_garden_plugins/bulk_dispatch.go:175-228 | The same along the whole chain of creates the op depends on |
| BulkMutation.NoNilTarget | internal/cutting_garden_plugins/bulk_mutate.go:354-422 | No backend call of a validated list of explicit ops gets a nil target or container |
| BulkMutation.SweepTargets | internal/cutting_garden_plugins/bulk_dispatch.go:270-275 | For a validated sweep no backend call gets a nil target exactly when no uncancelled match, whose body is not refused, has a nil URI |
| BulkMutation.SweepNilTarget | internal/cutting_garden_plugins/bulk_dispatch.go:270-275 | A validated sweep over a listing with a nil URI makes a call with a nil target |
| BulkMutation.RefusedDeleteBody | internal/cutting_garden_plugins/bulk_dispatch.go:159-171 | The engine's run of a validated delete whose temp id resolved can still make no call for it |
| MemoCache.RefreshBackoff | internal/mcp/refresh_backoff.go:14-20 | The back-off after n failures is min(5 * 2^(n-1), 60) minutes |
| MemoCache.VolatileWindowFor | internal/mcp/facet_cache.go:179-206 | The window is the smallest positive one among the volatile dimensions present, or zero |
| MemoCache.EntryTable.MarkVerified | internal/mcp/facet_cache.go:370-380 | Verification clears the failures and touches only this entry's bookkeeping; a missing entry stays missing |
| MemoCache.EntryTable.MarkError | internal/mcp/facet_cache.go:382-391 | A failed refresh counts one more failure and sets the next retry, and leaves result, token and compute time |
| MemoCache.EntryTable.DropSource | internal/mcp/listing_cache.go:347-354 | Exactly the entries of the written source go |
| MemoCache.InvStep | internal/mcp/facet_cache.go:292-368 | Every interleaved step of reads, refreshes and source changes keeps each stored token older than its data |
| MemoCache.CacheAgreement | internal/mcp/facet_cache.go:135-168 | In every reachable state a tokened non-volatile entry whose token is the source's current one holds the source's current value |
| MemoCache.AgreementExactly | internal/mcp/listing_cache.go:179-207 | For non-volatile sources all runs agree if and only if no token comes back after a change |
| MemoCache.RecurringToken | internal/mcp/facet_cache.go:214-228 | A token that is injective in the content still breaks agreement when the content comes back |
| MemoCache.OnlyStoresReplace | internal/mcp/facet_cache.go:370-391 | No step but a finished computation changes an entry's result, token, window or compute time |
| MemoRefresh.RefreshesToCurrent | internal/mcp/facet_cache.go:292-368 | With tokens that never recur, a refresh, or a read that misses, during which the source stays put and nothing else touches the entry, ends, unless it fails or is declined, with the node's current value in the cache, verified now, its failures cleared |
| MemoRefresh.VerifiesOrRecomputes | internal/mcp/facet_cache.go:319-368 | Such a refresh only verifies an entry whose token is still the source's, inside its window, and then leaves its value and age alone; otherwise it recomputes, which an entry without a token needs its window or TTL to have passed for, and restarts the age |
| MemoRefresh.StoresOfferedToken | internal/mcp/facet_cache.go:214-228 | A computed value is stored under the source's token if the source offered one before the computation, and without a token if it did not |
| MemoRefresh.UnmovedIsSpared | internal/mcp/listing_cache.go:298-310 | A source that offers an unmoved token inside the window is never asked to recompute |
| MemoRefresh.SuccessCommitsValue | internal/mcp/listing_cache.go:312-334 | A refresh or read none of whose calls fails or declines commits a value |
| MemoRefresh.EndsByCommit | internal/mcp/facet_cache.go:340-344 | A refresh ends without touching the entry only when it has no token and is inside its window and TTL; a read, only when its computation gave nothing |
| MemoRefresh.FailureRecorded | internal/mcp/facet_cache.go:382-391 | A refresh that fails at any of its calls keeps the value, records that error, counts one failure and waits out its back-off |
| MemoRefresh.DeclineForgets | internal/mcp/facet_cache.go:401-405 | A refresh whose source no longer summarizes the node forgets the entry |
| MemoRefresh.ReadServesExactly | internal/mcp/listing_cache.go:155-176 | A read serves without a call exactly when the node is cached, a listing is inside its window and a lazy node inside the TTL |
| MemoRefresh.RefreshStartsExactly | internal/mcp/facet_cache.go:297-309 | A refresh calls the plugin exactly for a cached node that is not lazy and whose retry time has come |
| MemoCache.AttemptGap | internal/mcp/facet_cache.go:297-319 | After a failure that is at least the m-th in a row, no refresh calls the plugin for min(5 * 2^(m-1), 60) minutes from that failure |
| MemoCache.BackoffSpan | internal/mcp/listing_cache.go:278-296 | While an always-failing entry stays cached, m + 1 refresh attempts span at least the sum of the first m gaps |
| UriTemplate.ParseURITemplate | internal/cutting_garden_plugins/uritemplate.go:48-134 | The scan gives the tokens, variable names, literal count and prefix length of the text, or the first fault in it, the last being a literal that is not UTF-8 |
| UriTemplate.ParseExactly | internal/cutting_garden_plugins/uritemplate.go:36-47 | A text is accepted exactly when it is the rendering of non-empty UTF-8 literals and bare, distinct, never adjacent variables, and the parse is that list |
| TemplateGrammar.NamesExactly | internal/cutting_garden_plugins/uritemplate.go:36-40 | A variable name starts with a letter or underscore and goes on with those and digits |
| TemplateGrammar.NoOperators | internal/cutting_garden_plugins/uritemplate.go:36-40 | No operator or modifier of RFC 6570 gets into a variable name |
| TemplateGrammar.Utf8Exactly | internal/cutting_garden_plugins/uritemplate.go:117-125 | The literals a template may hold are exactly the UTF-8 encodings (section 3 of RFC 3629) of sequences of scalar values |
| UriTemplate.Expand | internal/cutting_garden_plugins/uritemplate.go:141-174 | Re-scanning the raw text fills the parsed tokens in order with the escaped values, or reports the first unbound variable |
| UriTemplate.ExpansionBound | internal/cutting_garden_plugins/uritemplate.go:136-155 | Expansion succeeds exactly when every variable is bound |
| PercentEncoding.UnescapeEscape | internal/cutting_garden_plugins/uritemplate.go:156 | Percent-encoding (section 2.1 of RFC 3986) is undone by decoding, for every byte string |
| PercentEncoding.UnescapeConcat | internal/cutting_garden_plugins/uritemplate.go:195 | What follows an escaped value decodes on its own, so a longer capture never decodes to the same value |
| PercentEncoding.EscapesExactly | internal/cutting_garden_plugins/uritemplate.go:156 | A byte is left alone exactly when a path segment may hold it (section 3.3 of RFC 3986) and it is none of `!'()*,;` |
| UriTemplate.MatchExactly | internal/cutting_garden_plugins/uritemplate.go:102-125 | The matcher accepts u exactly when u splits into the literals interleaved with non-empty runs without '/', and it captures the split whose earliest differing run is longest |
| UriTemplate.Match | internal/cutting_garden_plugins/uritemplate.go:182-202 | The bindings are the decoded captures, one for each variable and no more; a capture that does not decode is no match |
| PercentEncoding.RecursExactly | internal/cutting_garden_plugins/uritemplate.go:17-24 | The condition on a literal's text holds exactly when some escaped value put after it makes it occur again before that value ends |
| PercentEncoding.FencedNeverRecurs | internal/cutting_garden_plugins/uritemplate.go:17-24 | A literal with a byte that percent-encoding never emits, such as '/', does not recur |
| PercentEncoding.ForeignEscapeNeverRecurs | internal/cutting_garden_plugins/uritemplate.go:17-24 | Nor does an escape spelled as `url.PathEscape` never spells it, such as '%2f' |
| PercentEncoding.EscapeRecurs | internal/cutting_garden_plugins/uritemplate.go:17-24 | An escape it does emit, such as '%2F', recurs |
| TemplateRoundTrip.RestoresIffGreedy | internal/cutting_garden_plugins/uritemplate.go:182-202 | The bindings come back exactly when the greedy split is the one the expansion was made from |
| TemplateRoundTrip.RoundTrip | internal/cutting_garden_plugins/uritemplate.go:141-202 | For a template in which no literal between variables recurs, matching the expansion gives the bindings back exactly when no value is empty |
| TemplateRoundTrip.FencedReversible | internal/cutting_garden_plugins/uritemplate.go:17-24 | In particular when every variable but the last is followed by a literal with '/' or another such byte |
| TemplateRoundTrip.ReversibleExactly | internal/cutting_garden_plugins/uritemplate.go:17-24 | The templates in which no literal between variables recurs are exactly those that give every non-empty binding back |
| TypeResolution.CompareTotalPreorder | internal/cutting_garden_plugins/resolve_uri_type.go:112-139 | The comparison is antisymmetric in sign and transitive, strict on either side staying strict; which way it points is WinnerCapturesLeast |
| TypeResolution.ResolveNodeTypeByURI | internal/cutting_garden_plugins/resolve_uri_type.go:50-107 | Succeeds exactly when one matching type is strictly more specific than every other match, that is, captures the least of the URI, and gives that type with its bindings |
| TypeResolution.WinnerCapturesLeast | internal/cutting_garden_plugins/resolve_uri_type.go:109-139 | The most specific match is the one whose variables take the fewest bytes of the URI; on equal bytes the one with the fewest captures; on equal captures the one whose first capture starts furthest right |
| TypeResolution.BytesSplit | internal/cutting_garden_plugins/uritemplate.go:207-217 | Literal characters and captured bytes together make up the URI |
| TypeResolution.OrderIrrelevant | internal/cutting_garden_plugins/resolve_uri_type.go:50-107 | Success and the chosen type are the same for every reordering of the declared types |
| CapturePlan.CheckRootCollisions | internal/capture/plan.go:327-342 | Refuses exactly the root lists in which two roots have one canonical key, naming the first such pair |
| CapturePlan.CollidesByPlace | internal/capture/plan.go:344-357 | Two arguments collide exactly when the paths of their URLs, or the opaque parts of URLs without a path, clean to the same place, however they are spelled and whichever plugin takes them |
| CapturePlan.PlanCapture | internal/capture/plan.go:79-205 | For none, one and many arguments: the groups, failures or error; one valid argument makes one default-store group; with two or more it errs exactly when a group collides, a named store gets no valid root or nothing usable was named, and the error is that of the first such group |
| CapturePlan.RootsConserved | internal/capture/plan.go:130-204 | The groups' roots, concatenated, are the valid capture arguments in order; no group is empty |
| CapturePlan.EachArgument | internal/capture/plan.go:128-194 | A root carries its own argument, plugin and URL, and a failure its own argument and error |
| CapturePlan.ArgumentsConserved | internal/capture/plan.go:128-194 | Every argument gives exactly one store, root or failure |
| CapturePlan.GroupsFollowStores | internal/capture/plan.go:148-171 | Each group is for the store its roots follow, with that store's notice; roots before any store go to the default store, without one |
| CapturePlan.GroupsDistinct | internal/capture/plan.go:327-357 | In an accepted plan the canonical keys are distinct within every group |
| CapturePlan.CutAtStores | internal/capture/plan.go:148-171 | Each group holds exactly the valid roots between its store argument and the next, so the nearest preceding store |
| TagAlgebra.WholeDimensionBuckets | internal/cutting_garden_plugins/tag_interpreter.go:119-130 | One bucket for each distinct tag, in order of first occurrence |
| TagAlgebra.WholeDimension | internal/cutting_garden_plugins/tag_interpreter.go:119-130 | In such a grouping each tag is its own bucket, every tag has one, and no bucket occurs twice |
| TagAlgebra.NaiveBuckets | internal/cutting_garden_plugins/tag_interpreter.go:151-161 | A namespace is refused; without one, whole-dimension grouping |
| TagAlgebra.HyphenBuckets | internal/cutting_garden_plugins/tag_interpreter.go:244-272 | One bucket for each distinct first segment strictly under the namespace, in order, with the first contributing tag as its via |
| TagAlgebra.BucketsMatch | internal/cutting_garden_plugins/tag_interpreter.go:244-287 | Namespace followed by bucket matches the tag the bucket came from, and no bucket occurs twice |
| TagAlgebra.BucketsComplete | internal/cutting_garden_plugins/tag_interpreter.go:244-272 | Every tag that falls in a bucket finds its bucket in the grouping |
| TagAlgebra.BucketIffMatches | internal/cutting_garden_plugins/tag_interpreter.go:279-287 | A tag falls in the bucket of a segment, the empty one included, exactly when it matches the namespace with that segment and is not the bare namespace with its hyphen |
| TagAlgebra.UnderOrder | internal/cutting_garden_plugins/tag_interpreter.go:279-287 | Matching along the segment path is a partial order: transitive, reflexive, antisymmetric |
| TagAlgebra.UnderExactly | internal/cutting_garden_plugins/tag_interpreter.go:279-287 | A tag lies under exactly itself and what precedes one of its hyphens |
| TagAlgebra.HyphenMatches | internal/cutting_garden_plugins/tag_interpreter.go:279-287 | True exactly when some tag is the term or lies under it |
| TagAlgebra.Complete | internal/cutting_garden_plugins/tag_interpreter.go:302-337 | Adding appends when absent, removing drops every occurrence, an unknown op is refused |
| TagAlgebra.AddsOnce | internal/cutting_garden_plugins/tag_interpreter.go:302-337 | Adding keeps the tags in place, makes the tag present exactly once more, and a second time does nothing |
| TagAlgebra.RemovesAll | internal/cutting_garden_plugins/tag_interpreter.go:302-337 | Removing drops every occurrence and keeps the others in order |
| TagAlgebra.AddThenRemove | internal/cutting_garden_plugins/tag_interpreter.go:302-337 | Add then remove restores the sequence exactly when the tag was absent |
| TagAlgebra.RemovalNotTransitive | internal/cutting_garden_plugins/tag_interpreter.go:289-301 | After removing a tag the node still matches it exactly when it has a tag strictly under it |
| LineWriter.ReporterLineWriter.Write | internal/capture/progress.go:49-65 | One write logs the non-empty trimmed lines of buffer plus input, keeps the text after the last break, and leaves the writer ready for the next |
| LineWriter.PendingTail | internal/capture/progress.go:49-65 | The kept text is exactly what follows the last CR or LF |
| LineWriter.LinesExactly | internal/capture/progress.go:49-65 | The log holds exactly the ended lines that do not trim to nothing, each once, trimmed and in order |
| LineWriter.ChunkingIndependent | internal/capture/progress.go:49-65 | However the input is cut, folding Write's contract over the pieces gives the log and buffer of the whole input |
| LineWriter.WriteAll | internal/capture/progress.go:49-65 | Any sequence of calls of Write leaves the lines of the concatenated input in the log and the text after its last break in the buffer |

## Left out

- ResolveFacetCounts, CanSummarizeFacets, facet filter parsing and validation, container breakdown sorting: branching or plumbing around the fold.
- Case folding in facet predicates is ASCII only; node identity is the URL's string, and a listing depends on nothing else.
- Sockets, file descriptor passing, datagram size and malformed datagrams: a socket is a queue of well-formed messages; a send to a closed peer is lost. Whether an answer or a simultaneous close wins in `call` is left open.
- ShutdownOrDrop: `Serve`'s outer context is never cancelled, as the repository's promise assumes.
- `Serve` and the protocol's `WriteBlob` are sequences of steps rather than methods, because they block; the orchestrator's pipes and commit goroutines are steps as well, and `RunBatch` is the driver of one batch.
- BulkBestEffortSweep: where Go would take the string of a nil URI (a patch of a match without one that reports a new URI) the model records an outcome.
- WriteAll is a client of the line writer, not a function of the repository.
- JSON, canonical JSON and hashing: an injective serializer and digest, with the laws stated as `Lawful`.
- Decompression, blob streaming and `OpenNodeBody`'s closing order: the body is the rest of the text.
- BestEffortBulkMutate and AtomicBulkMutator dispatch: a choice between the engine modelled here and a plugin's own.
- CacheAgreement: volatile entries are outside it, and nothing is claimed of the notes of partial listings.
- RefreshesToCurrent: `value` depends on the node and the source's version only, so it speaks of non-volatile values.
- The freshness and provenance labels shown beside a cached result.
- The caches' periodic maintenance loop is an arbitrary sequence of refresh steps; whole `serve` and `refreshOne` calls are jobs whose locked sections interleave.
- The template cache, and Go's regexp engine beyond the anchored greedy expression a template compiles to: it refuses literals that are not UTF-8 but has no size limit.
- MatchExactly: the matcher works on bytes, where Go's reads an invalid byte of the URI as U+FFFD, so a literal holding that character would also match such a byte; an expansion never holds one.
- Argument classification, source validation, path cleaning and notices are functions of the argument, given by the Host; filesystem probing is not modelled.
- Trimming is a parameter of the line writer.
- Registries, configuration, the command line, renderers and plugins.
