# SAT download backend: a verified model

The backend downloads a company's tax invoices (CFDIs) from SAT, the Mexican tax authority, and
serves filtered views of them. This project models its three intricate parts in Dafny and proves
what they are for.

**The download pipeline.** Requests are created, verified with a backoff until SAT has finished
them, downloaded package by package in parallel, and processed as metadata or XML, over queues that
deliver at least once. `Pipeline` holds the rows, the messages and what each handler does with one
message, as a plan of actions. `Protocol` runs plans one action at a time, interleaved with every
other handler, the clock, new requests and manual re-verification; a handler can die between any two
actions, which leaves its message to be delivered again, and it imports a package statement by statement,
passing over what cannot be read or fails. `Lifecycle` looks at runs in which no handler dies, and
`Attempts` counts the verifications in them (`VerifyBackoff` bounds the retries). `Storage` says whether what
a handler opens is stored, `Applied` what a processed query leaves in the `cfdi` table, and `Shortfalls` what
can be missing there. `Handlers` has the handlers in their imperative form, and `Simulation` matches each call
of a handler, and each manual re-verification, with a run of the protocol. `Ledger`, `Payments` and
`TenantTables` are the tables the processing step writes; `MetadataJoiner` reads SAT's metadata files.

**Range planning.** `CfdiChunks` plans XML requests over rows that still need their XML,
`RangeChunks` splits a period into windows, `Calendar` does civil dates and the ranges built from
them, `SatEnqueue` publishes the spaced requests, `StatusLog` decides which days are done.

**Small compilers and rewriters.** `DomainFilter` compiles nested JSON filters to SQL text with
positional arguments; `Sql` reads such text back, with the precedence of OR, AND and NOT, and
evaluates it in three-valued logic, `LikePatterns` being its LIKE; `FilterCorrect` proves that filters in
the documented forms are compiled to what they say, `FilterRows` says operator by operator and shape by shape
which rows are kept, in terms of their values alone, and `FilterForms` shows what becomes of other forms.
`Search` adds the rewrites, the active flag and paging around it, `Aliases` the joined tables, `Exercise` the
rewrite behind the yearly totals, and `Envelope` the rendering and signing of SOAP requests.

Some promises do not hold of the code in general. Each of these has a lemma with an input that shows
it, next to the lemma that says when the promise holds:

- a query of a request type the router does not know is marked DOWNLOADED and then lost
  (`Protocol.UnroutableQueryIsLost`, beside `Protocol.NoLostQuery`);
- a process message that names no packages makes its handler open those of the row, which need not be
  stored yet (`Storage.FallbackOpensUnstored`; `Storage.FallbackExactly` says in which states of the row that
  can happen);
- a query can be PROCESSED with records of its packages missing: a stored package that could not be read is
  passed over (`Shortfalls.SkippedPackage`), so is one that is not stored (`Shortfalls.UnstoredPackage`), and a
  document can end up without its `from_xml` flag though every statement was executed
  (`Shortfalls.DividedDocument`). `Applied.ProcessedIsShown` says what is there all the same,
  `Applied.ShownExactly` exactly when a package is shown whatever it holds, and `Applied.TableExact` what
  becomes of each CFDI;
- a metadata record that lands between the two statements of one XML document costs the document its
  `from_xml` flag (`Ledger.DividedDocumentLosesFlag`; `Ledger.FromXmlExact` and `Ledger.FlagUnsetExactly`
  say exactly what becomes of the flag under every interleaving of statements), and writers that disagree
  on who issued a CFDI leave two rows for it (`Ledger.IssuersMustAgree`);
- a line break in the first, second, eleventh or twelfth metadata field is not undone
  (`MetadataJoiner.BreakPositions` says exactly which are);
- some filters are accepted and then not compiled to what they say. Single conditions:
  `FilterForms.SupportedExactly` says exactly which are compiled faithfully; any operator on `used_in_isr`
  acts as `=`, `is` and `is not` act as if their value were null, `not in` a single value lets every row
  through, and percent signs, underscores and backslashes in the text of `like` act as wildcards and
  escapes. Shapes: a bar before the conditions themselves (`FilterForms.PrefixBarKeepsAll`), with nothing
  behind it (`FilterForms.EmptyBarKeepsAll`), with a domain nested in its list
  (`FilterForms.NestedDomainSkipped`) or a second list (`FilterForms.SecondListSkipped`), and an item
  that is no list (`FilterForms.StrayItemSkipped`);
- a requested range of CFDIs can take in more than its 10,000 rows, and rows of another range, when rows of one
  date fall into different windows (`CfdiChunks.SameDateExceedsLimit`; `CfdiChunks.RangeTakesWindow` says exactly
  when a range takes in the rows of its window and no others);
- a date bound with a zone offset can make the yearly totals leave out rows of the filtered list
  (`Exercise.OffsetCanNarrow`; `Exercise.WidensExactly` says exactly when that happens);
- `pr_count` exceeds the stored relations when a payment names the same document and partiality
  twice (`Payments.RepeatedPairCountsTwice`; `Payments.PrCountOverRun` says exactly when the two agree).

Qualifying the fields of a filter with a table alias would change the virtual fields `efos` and
`used_in_isr` into columns; `Search.QualifiesExactly` shows that these are the only fields it changes. Only
the company search has an alias, and companies have no such fields, so this is a limit of the rewrite and
not a fault of any search.

## Model

| member | source | states |
|---|---|---|
| Protocol.NoLostQuery | internal/worker/handlers/verify_query.go:109-175 | after any run, with deaths at any point before a settlement, reordering, redelivery and re-verification, every row for metadata or CFDIs in SENT, TO_DOWNLOAD or DOWNLOADED has an unacknowledged message about it, unless its own creation died half way |
| Protocol.InvHolds | internal/worker/handlers/verify_query.go:221-272 | every reachable world is well formed and every waiting row has a keeper: a message whose handler has still to write the row or to publish the next message about it |
| Protocol.TypedStep | internal/worker/handlers/download_query.go:87-106 | every step of every handler keeps the messages about existing rows of their own request type, and the plans and downloads in progress consistent with them |
| Protocol.KeptStep | internal/worker/handlers/verify_query.go:300-329 | every step leaves a keeper to each row it leaves waiting, though the row write is not guarded by the old state |
| Protocol.KeptPerform | internal/worker/handlers/verify_query.go:132-175 | the same for the single actions of a handler: write, publish, settle |
| Protocol.WriteKeepsRows | internal/worker/handlers/verify_query.go:300-329 | a write never adds or removes a row and never changes its request type or sent date; only the row named changes state |
| Protocol.ReverifyAdoptsOrphan | internal/handler/sat_query.go:412-453 | a row whose creation died before its first message gets one back by a manual re-verification |
| Protocol.JoinIsAllOrNothing | internal/worker/handlers/download_query.go:46-106 | whatever the order in which the package goroutines finish, after the wait `firstErr` is unset exactly when every package was stored |
| Storage.DownloadedIsStored | internal/worker/handlers/download_query.go:87-106 | in every run a DOWNLOADED row names only packages that are stored, and a SENT one none |
| Storage.OpenedPackagesAreStored | internal/worker/handlers/process_metadata.go:62-76 | in every run, what a process handler opens is stored if its message names packages, or if the row it falls back on is DOWNLOADED or was never given any |
| Storage.FallbackOpensUnstored | internal/worker/handlers/process_metadata.go:62-76 | for each of the eight other states there is a run after which a process message waits whose handler would open a package that is not stored, its row being in that state |
| Storage.FallbackExactly | internal/worker/handlers/process_xml.go:45-59 | so the state of the row says exactly when that can happen |
| Protocol.ProcessedPackagesAreStored | internal/worker/handlers/process_metadata.go:136-143 | every package an unacknowledged process message names is in blob storage |
| Protocol.HandlerRunsThrough | cmd/worker/main.go:187-208 | a handler that is not disturbed carries out its whole plan: the rows, the events, in order and under new identifiers, the statements of the packages it can read, and the settlement of its message are those of the plan carried out in one go |
| Protocol.UnroutableQueryIsLost | internal/domain/event/subscribe.go:228-244 | for any other request type there is a run that ends with a DOWNLOADED row and no message at all |
| Lifecycle.EveryQueryLivesALife | internal/worker/handlers/create_query.go:54-122 | in a run without deaths and re-verifications the states written to each row, from DRAFT on, follow one another as the pipeline's stages do, and the last is the row's state |
| Lifecycle.CleanInvHolds | internal/worker/handlers/verify_query.go:109-218 | in such a run every waiting row has exactly one live message, whose kind and progress go with the row's state, and a settled row has none |
| Lifecycle.EveryStepGetsCloser | internal/worker/handlers/verify_query.go:246-272 | a step on a row's live message settles the row or leaves a live message of lower rank (stage, remaining wait, work left in the handler); every other step leaves message and rank as they are |
| Lifecycle.NeverStuck | internal/worker/handlers/process_metadata.go:109-118 | a waiting row can always be moved on: once enough time has passed, some step on its live message is possible |
| Lifecycle.EveryQueryCanSettle | internal/worker/handlers/process_metadata.go:109-118 | however such a run has gone so far, it can be continued, still without a death, until the row is settled |
| Lifecycle.VerifyShape | internal/worker/handlers/verify_query.go:56-129 | every answer SAT can give leads to a final state, to TO_DOWNLOAD with its download message, or to one more verification that is later and still within the wait |
| Handlers.Worker.HandleVerify | internal/worker/handlers/verify_query.go:56-129 | the handler completes its message exactly when a sent date can be found, its own or that of its row. Without a certificate, after a failed call, and for the statuses Unknown, Accepted, InProcess and any other it then does what `HandleRetry` promises, for Finished what `HandleFinished` does, for Error, Rejected and Expired what `HandleError` does; otherwise it changes nothing |
| Handlers.Worker.HandleFinished | internal/worker/handlers/verify_query.go:132-175 | with over 200 packages, or over 500,000 CFDIs unless for metadata, the row is MANUALLY_CANCELLED and nothing is sent; otherwise it is TO_DOWNLOAD and one download message with the quantity and the packages is out; both are written where there are any, and no other row and no identity column changes |
| Handlers.Worker.HandleError | internal/worker/handlers/verify_query.go:178-218 | 5004 gives INFORMATION_NOT_FOUND; 5002 gives ERROR_SAT_WS_INTERNAL for quantity 0 and ERROR_TOO_BIG otherwise; all others ERROR; quantity and packages stay, and a split event is sent exactly for metadata with 5002 and a non-zero quantity |
| Handlers.Worker.HandleRetry | internal/worker/handlers/verify_query.go:246-272 | without a sent date, or once 240 minutes (or the configured wait) have passed since, the row is TIME_LIMIT_REACHED and nothing is sent; otherwise no row changes and one verification is sent, due 15, 30 or 60 minutes later by the time elapsed, but no later than the end of the wait |
| Handlers.Worker.UpdateQueryState | internal/worker/handlers/verify_query.go:300-329 | writes state always, quantity when positive, packages when there are any; no other row, and no request type or sent date, changes |
| Handlers.Worker.HandleCreate | internal/worker/handlers/create_query.go:30-166 | the new row is ERROR_IN_CERTS, ERROR_SAT_WS_INTERNAL or SENT with its sent date, and only in the last case is there a verify message |
| Handlers.Worker.HandleDownload | internal/worker/handlers/download_query.go:26-135 | DOWNLOADED exactly when there is a certificate and every package came through in whatever order, and then one message with the packages to the metadata queue for metadata, to the XML queue for CFDIs, and to none for other types; ERROR and no message otherwise; exactly the packages that came through are stored |
| Handlers.Worker.DownloadPackages | internal/worker/handlers/download_query.go:46-85 | `firstErr` is set exactly when some package failed, and then to one that did |
| Handlers.Worker.HandleMetadata | internal/worker/handlers/process_metadata.go:50-132 | all readable packages go into the tables in order, then the row is PROCESSED and completion is requested; without the RFC the message is abandoned with nothing changed |
| Handlers.Worker.HandleXml | internal/worker/handlers/process_xml.go:33-95 | all readable packages' documents go into the tables in order, one per UUID within a package, then the row is PROCESSED |
| Handlers.Worker.PublishReverifications | internal/handler/sat_query.go:412-453 | one verify message, due at once, for each of the rows created lately that is SENT or TIME_LIMIT_REACHED, with the row's own request type and sent date, and their number |
| Simulation.CreateMatched | internal/worker/handlers/create_query.go:30-166 | every creation is matched by a protocol run from the same rows to the same rows, whose queue gains exactly the messages sent, each under an identifier not in use before |
| Simulation.VerifyMatched | internal/worker/handlers/verify_query.go:56-129 | the same for a verification, whose own message leaves the queue |
| Simulation.DownloadMatched | internal/worker/handlers/download_query.go:26-135 | the same for a download, whichever packages come through, blobs included |
| Simulation.MetadataMatched | internal/worker/handlers/process_metadata.go:50-132 | the same for processing metadata, whichever of the stored packages can be read, and the `cfdi` table stays the one the statements executed in the run make |
| Simulation.XmlMatched | internal/worker/handlers/process_xml.go:33-95 | the same for processing XML, with the two statements of every document and one issuer per UUID |
| Simulation.ReverifyMatched | internal/handler/sat_query.go:412-453 | the same for a manual re-verification of any rows |
| Simulation.DownloadThrough | internal/worker/handlers/download_query.go:46-106 | for every outcome of the packages there is a run that stores exactly those that came through and carries out the plan for it |
| Applied.ProcessedMeansAttempted | internal/worker/handlers/process_xml.go:64-91 | in every run, with deaths, redelivery, packages that cannot be read and statements that fail, a row is PROCESSED only through a handler that has gone through all its packages (its message's, if that names any); only stored packages are imported, and an import without a failure has executed every statement of its package |
| Applied.ProcessedIsShown | internal/worker/handlers/process_metadata.go:86-118 | after any run, a PROCESSED row has such a handler, and the `cfdi` table shows every record and document of each of its packages that was once imported without a failure: present, and cancelled if so reported |
| Applied.TableExact | internal/worker/handlers/process_xml.go:647-786 | after any statements in any order, a CFDI is present exactly if one mentioned it, in force exactly if none reported it cancelled, and marked as XML unless a metadata record brought it there and no document's update came after |
| Applied.ShownExactly | internal/worker/handlers/process_metadata.go:87-97 | the table shows a package whatever it holds exactly if all its statements were executed |
| Shortfalls.SkippedPackage | internal/worker/handlers/process_metadata.go:87-97 | there is a run that ends with a PROCESSED row and nothing of its package, which is stored, in the table |
| Shortfalls.UnstoredPackage | internal/worker/handlers/process_metadata.go:62-97 | there is one with a package that is not stored |
| Shortfalls.DividedDocument | internal/worker/handlers/process_xml.go:744-786 | for every record there is a run that ends with both queries that brought its CFDI PROCESSED, every statement executed, and the CFDI not marked as XML |
| Applied.AsIfImportedOnce | internal/worker/handlers/process_metadata.go:251-331 | how often, in what order and how interleaved the same statements were executed shows in no presence and no status; nor in the XML flag, if no document of the CFDI was divided |
| VerifyBackoff.RetryStaysInWindow | internal/worker/handlers/verify_query.go:246-272 | a query times out exactly when the wait is over, and every retry lies in the future and no later than the end of the wait |
| VerifyBackoff.ElapsedFloor | internal/worker/handlers/verify_query.go:33-42 | at its k-th handling a chain of retries has waited at least 15, 45, 105, … minutes, or the wait is over |
| VerifyBackoff.AttemptsBounded | internal/worker/handlers/verify_query.go:246-272 | however late each delivery is, a query SAT never finishes is handled at most 3 + ⌈(W − 45 min) / 60 min⌉ times |
| VerifyBackoff.AttemptBoundTight | internal/worker/handlers/verify_query.go:33-42 | the chain delivered exactly on time attains the bound |
| VerifyBackoff.PunctualChain | internal/worker/handlers/verify_query.go:246-272 | the chain delivered on time is a chain and ends in a time-out |
| Attempts.TimesFormChain | internal/worker/handlers/verify_query.go:246-272 | in every run without deaths and re-verifications, the verifications of a row form one chain from its sent date, and any still to come goes on from it |
| Attempts.AttemptsBoundedInRuns | internal/worker/handlers/verify_query.go:246-272 | so they number at most 3 + ⌈(W − 45 min) / 60 min⌉, whatever SAT answers and however late deliveries are |
| Attempts.AttemptBoundReached | internal/worker/handlers/verify_query.go:33-42 | for every wait over 15 minutes some such run has exactly that many |
| Ledger.StatusConverges | internal/worker/handlers/process_metadata.go:251-331 | for any history of metadata records and XML statements, in any order and repetition, a CFDI is present exactly if mentioned, and in force exactly if no record ever reported it cancelled |
| Ledger.DateExact | internal/worker/handlers/process_metadata.go:251-331 | the cancellation date is that of the first record to report the CFDI cancelled, by any text but `Vigente`, `1` and `t`; if none does, that of the record that brought it there, or none if a document did |
| Ledger.FromXmlExact | internal/worker/handlers/process_xml.go:647-786 | under any interleaving of records and single statements `from_xml` is set exactly if some update found the CFDI there or some insert found it missing |
| Ledger.FlagUnsetExactly | internal/worker/handlers/process_xml.go:647-786 | that is, unless a metadata record was the first to mention the CFDI and no update of a document came after |
| Ledger.FromXmlConverges | internal/worker/handlers/process_xml.go:647-786 | with a document's two statements undivided, `from_xml` is set exactly if the CFDI was ever seen as XML |
| Ledger.HalvesSame | internal/worker/handlers/process_xml.go:647-786 | where all agree on issuers, documents do what their updates and inserts do one after the other |
| Ledger.Convergence | internal/worker/handlers/process_metadata.go:251-331 | two histories made of the same writes leave the same rows with the same flags |
| Ledger.ReplaysAbsorbed | internal/worker/handlers/process_metadata.go:251-331 | replaying any writes already made, in any order and number, leaves the table exactly as it is |
| Ledger.FlagsNeverRevert | internal/worker/handlers/process_xml.go:647-786 | no write deletes a row, revives a cancelled CFDI or forgets its XML |
| Ledger.DividedDocumentLosesFlag | internal/worker/handlers/process_xml.go:744-786 | a record between the update and the insert of a document costs it the flag, until the document is processed again |
| Ledger.IssuersMustAgree | internal/worker/handlers/process_metadata.go:251-331 | without one issuer per UUID convergence fails |
| TenantTables.TenantDb.UpsertStatement | internal/worker/handlers/process_metadata.go:283-331 | the multi-row upsert acts record by record; it is refused exactly if two of its records fall on one row, and then changes nothing |
| TenantTables.TenantDb.UpsertBatches | internal/worker/handlers/process_metadata.go:246-335 | it succeeds exactly if none of the batches of five hundred holds two records for one row; then the batches amount to one pass over all records, and collect exactly the CFDIs reported cancelled; otherwise exactly the batches before the first such one are in the table |
| TenantTables.TenantDb.UpsertMetadataRecords | internal/worker/handlers/process_metadata.go:239-341 | the batches, then the cascade; if a batch is refused the ones before it stay and the cascade does not run |
| TenantTables.TenantDb.ProcessMetadataFile | internal/worker/handlers/process_metadata.go:136-176 | no statement is ever refused for a parsed file, so all its records and cancellations take effect |
| TenantTables.TenantDb.CancelRelated | internal/worker/handlers/process_metadata.go:343-373 | switches off exactly the payments and relations of the given CFDIs |
| TenantTables.TenantDb.UpsertFromXml | internal/worker/handlers/process_xml.go:647-786 | if rows with the UUID exist, exactly these are marked as XML and nothing else changes; otherwise one row is added, in force, marked as XML, and issued by the company exactly if the document was |
| TenantTables.TenantDb.ProcessPackageXmls | internal/worker/handlers/process_xml.go:99-175 | the documents of a package, first of each UUID only, go through both groups of tables in order |
| TenantTables.TenantDb.InsertPayments | internal/worker/handlers/xml_payments.go:26-197 | payments, relations and `pr_count` after the nested loops are those of the import |
| TenantTables.FilesDistinct | internal/worker/handlers/process_xml.go:115-151 | no UUID of a package is processed twice |
| TenantTables.FirstFileKept | internal/worker/handlers/process_xml.go:115-151 | the first document of each UUID is processed |
| Payments.ImportIdempotent | internal/worker/handlers/xml_payments.go:49-196 | importing a document again changes nothing, `pr_count` included |
| Payments.ImportStores | internal/worker/handlers/xml_payments.go:26-88 | an import of a payment document adds a row in force for each of its payments not yet there, with its amount, and changes no payment that is; an import of any other document changes nothing |
| Payments.ImportStoresRelations | internal/worker/handlers/xml_payments.go:90-184 | it adds a relation for each document named by a UUID and not yet there, under the payment, UUID and partiality, with the amount paid, and no other |
| Payments.CancelledStaysCancelled | internal/worker/handlers/xml_payments.go:49-196 | under any further imports and cancellations no row disappears and none that was cancelled comes back |
| Payments.CancelThenImport | internal/worker/handlers/process_metadata.go:343-362 | a cancellation reaches exactly the rows of the CFDIs named, whatever is imported after it |
| Payments.PrCountExact | internal/worker/handlers/xml_payments.go:170-196 | an import adds the relations the document names to those the CFDI had, and `pr_count` is at least the number of the former, and equal exactly when the pairs of related UUID and partiality are distinct within each payment |
| Payments.PrCountOverRun | internal/worker/handlers/xml_payments.go:170-196 | after any run of imports and cancellations in which each CFDI always comes as the same document, `pr_count` equals the stored relations exactly under that condition |
| Payments.RepeatedPairCountsTwice | internal/worker/handlers/xml_payments.go:170-196 | a payment with the same pair twice leaves a `pr_count` of two and one relation |
| Payments.RunWellKeyed | internal/worker/handlers/xml_payments.go:49-196 | every stored relation belongs to the CFDI its payment belongs to, over all runs |
| Payments.AllRowsDistinct | internal/worker/handlers/xml_payments.go:49-196 | relation identifiers repeat exactly when pairs repeat within one payment |
| MetadataJoiner.JoinerInvertsSplitting | internal/worker/handlers/process_metadata.go:179-235 | records whose line breaks fall in fields 3 to 10, split at the breaks and parsed, come back with the breaks removed, the first per normalised UUID |
| MetadataJoiner.FileRead | internal/worker/handlers/process_metadata.go:179-235 | reading a file gives, field by field, the first record of each UUID of those it was written from |
| MetadataJoiner.RecordReadBack | internal/worker/handlers/process_metadata.go:186-215 | the same for one record with any number of broken fields and breaks per field, at any point of its lines |
| MetadataJoiner.BreakPositions | internal/worker/handlers/process_metadata.go:186-215 | a record broken once between non-empty pieces comes back exactly when the break is in fields 3 to 10 |
| MetadataJoiner.FirstPerUuidKeepsFirsts | internal/worker/handlers/process_metadata.go:208-232 | the records kept are exactly the first ones of the UUIDs not seen before |
| MetadataJoiner.ParsedDistinct | internal/worker/handlers/process_metadata.go:179-235 | no UUID occurs twice in a parsed file, so no upsert statement meets a key twice |
| MetadataJoiner.ParseMetadataRows | internal/worker/handlers/process_metadata.go:179-235 | whatever records the file was written from, each broken over lines in fields 3 to 10 or lacking its last field, the loop returns one record per first occurrence of a UUID, with the UUID normalised and the other eleven fields in order as written, breaks removed, and no others |
| CfdiChunks.GreedyOptimal | internal/worker/handlers/complete_cfdis.go:164-196 | no family of windows of at most n consecutive rows that covers every row needing download has fewer windows than the walk returns |
| CfdiChunks.GreedySound | internal/worker/handlers/complete_cfdis.go:164-196 | the windows are ordered, disjoint, of at most n rows, and begin and end with rows needing download |
| CfdiChunks.GreedyCoversOnce | internal/worker/handlers/complete_cfdis.go:164-196 | every row needing download lies in exactly one window |
| CfdiChunks.GetCfdiChunks | internal/worker/handlers/complete_cfdis.go:164-196 | the two-pointer walk ends for every input and returns one range per greedy window of at most 10,000 rows, from the date of its first row to that of its last |
| CfdiChunks.ChunksReachEveryRow | internal/worker/handlers/complete_cfdis.go:164-196 | with the rows in date order the date of every row needing download falls in a returned range |
| CfdiChunks.RangesStayInLimit | internal/worker/handlers/complete_cfdis.go:164-196 | if no two rows have the same date, each returned range takes in at most 10,000 rows, begins and ends at one that needs download, and ends before the next begins |
| CfdiChunks.RangeTakesWindow | internal/worker/handlers/complete_cfdis.go:186-191 | with the rows in date order, the range of a window takes in all rows of the window, and no other exactly if neither neighbour of the window has the date of an end |
| CfdiChunks.SameDateExceedsLimit | internal/worker/handlers/complete_cfdis.go:164-196 | 10,001 rows of one date make two requests for that date, each of which takes in all of them |
| RangeChunks.ChunkRangeByDays | internal/domain/datetime/chunk_range.go:13-28 | the loop returns the windows of the range, none for an empty range or a non-positive size |
| RangeChunks.ChunksTile | internal/domain/datetime/chunk_range.go:13-28 | the windows tile the range without gap or overlap, all but the last of full size, as many as the range divided by the size, rounded up |
| RangeChunks.ChunksPartition | internal/domain/datetime/chunk_range.go:13-28 | an instant lies in a window exactly if it lies in the range, and then in one only |
| SatEnqueue.CompanyCreated | internal/domain/event/subscribe.go:70-165 | the events of a new company's first synchronisation are, one by one: the metadata request; per window of 90 days a CFDI request that is not manual for what was issued and one for what was received, each three seconds after the one before; the two completions from the start of the range; and the scrap request unless the infrastructure is local |
| SatEnqueue.FirstSyncSchedule | internal/domain/event/subscribe.go:51-137 | 1 + 2n scheduled events for n windows, the k-th 3k seconds after the base time, every window once per download type in order |
| SatEnqueue.Enqueue | internal/handler/admin_sat_enqueue.go:91-133 | the events of an administrator's request, and their count |
| SatEnqueue.EnqueueSchedule | internal/handler/admin_sat_enqueue.go:91-148 | one request per window and type asked for by name, all manual and for what was asked (CFDIs or metadata), 3 seconds apart, every window once per type in order |
| Calendar.CivilBijection | internal/domain/datetime/mx.go:16-20 | dates and day numbers correspond one to one |
| Calendar.DayNumberOrders | internal/domain/datetime/mx.go:16-20 | day numbers order dates as the calendar does |
| Calendar.GregorianMonths | internal/domain/datetime/mx.go:16-20 | each month begins where the one before ends, with 31, 30, 28 or in leap years 29 days |
| Calendar.ParseFormat | internal/domain/datetime/admin_enqueue_range.go:14-64 | a formatted date is read back as itself |
| Calendar.ParseExact | internal/domain/datetime/admin_enqueue_range.go:14-64 | and nothing else is read as that date |
| Calendar.FormatLayout | internal/domain/datetime/admin_enqueue_range.go:14-64 | year, month and day are written in four, two and two decimal digits with a dash between |
| Calendar.ClampedRangeExact | internal/domain/datetime/admin_enqueue_range.go:35-64 | the clamped range exists exactly when both dates are real and the start is neither after the end nor in the future, and runs from the start through the earlier of end and today |
| Calendar.BootstrapRangeValid | internal/domain/datetime/company_bootstrap_sat_range.go:16-26 | the bootstrap range never fails or clamps; it starts on 2 January of the year so many years back, and its exclusive end is midnight of today's date in Mexico |
| Calendar.BootstrapEndPrintsToday | internal/infra/sat/query.go:14-21 | the date SAT is given for that end is today's date in Mexico, at every moment |
| StatusLog.ContainedExactly | internal/handler/sat_query.go:496-511 | a range lies in the merged multirange exactly when the single ranges together leave none of its instants out |
| StatusLog.StatusExact | internal/handler/sat_query.go:536-583 | a day's status per download type: INCOMPLETE exactly if a CFDI in force of that day has neither XML nor the too-big mark, or an instant of the day lies in no query for the type that is PROCESSED or INFORMATION_NOT_FOUND and no cancellation; otherwise EMPTY exactly if no CFDI of that day and type is in force |
| StatusLog.DayStatusExact | internal/handler/sat_query.go:566-583 | the day as a whole: INCOMPLETE exactly if one type is, otherwise EMPTY exactly if no CFDI of that day is active |
| StatusLog.CountsExact | internal/handler/sat_query.go:512-535 | the counts differ exactly when a CFDI in force of the day and type has neither XML nor the too-big mark, and the total is zero exactly when none is in force |
| StatusLog.UntouchedDayIncomplete | internal/handler/sat_query.go:536-583 | a day no settled query overlaps is INCOMPLETE |
| StatusLog.SettledRangeIsCovered | internal/domain/datetime/chunk_range.go:13-28 | once every request made for a chunked range has settled, for both types, each day of the range is covered and INCOMPLETE exactly if it has a pending CFDI |
| StatusLog.FirstSyncCoversHistory | internal/domain/event/subscribe.go:70-165 | the same for every day from 2 January five years ago through yesterday, from the events a new company publishes |
| FilterCorrect.CompilerCorrect | internal/domain/filter/parser.go:47-132 | for every nested domain in the documented forms, the emitted clauses, each parenthesised and joined by AND with the arguments bound left to right, keep exactly the rows the domain read directly is true of in three-valued logic |
| FilterCorrect.CompiledKeeps | internal/domain/filter/parser.go:53-132 | for every domain it accepts, there are as many placeholders as arguments, and the text keeps exactly the rows all its conditions, groups as disjunctions, are true of |
| FilterRows.ComparisonKeeps | internal/domain/filter/parser.go:218-240 | on an ordinary column `=`, `!=`, `>`, `<`, `>=` and `<=` keep exactly the rows that have a value there which is equal, different, greater, less, and so on |
| FilterRows.MissingKeeps | internal/domain/filter/parser.go:167-274 | `=` and `!=` with a missing value, which may be written "null", keep the rows without and with a value, and so do `is` and `is not` with any value |
| FilterRows.ListKeeps | internal/domain/filter/parser.go:242-262 | `in` keeps the rows equal to one of the list, `not in` those different from all; missing values count for neither unless the list is empty |
| FilterRows.LikeKeeps | internal/domain/filter/parser.go:264-267 | `like` and `ilike` keep the rows whose text contains the one asked for, if that has no special character |
| FilterRows.OperatorsAccepted | internal/domain/filter/parser.go:218-278 | twelve operators are accepted on an ordinary column and no others |
| FilterRows.DottedKeeps | internal/domain/filter/parser.go:292-300 | a dotted name is a column of the table before the dot |
| FilterRows.EfosKeeps | internal/domain/filter/parser.go:172-187 | `efos` keeps the rows whose issuer is listed, or is known not to be |
| FilterRows.IssuedKeeps | internal/domain/filter/parser.go:189-211 | `cfdis.is_issued` keeps the companies with a CFDI on the side asked for; yes and no can be written in the ways of `coerceToBool`, and anything else is refused |
| FilterRows.IsrKeeps | internal/domain/filter/parser.go:136-152 | `used_in_isr` keeps payments and income paid at once, or the rows known to be neither |
| FilterRows.AndKeeps | internal/domain/filter/parser.go:47-97 | any list that is no condition and begins with no bar keeps exactly the rows that all lists in it keep, and is accepted exactly if all of them are |
| FilterRows.OrKeeps | internal/domain/filter/parser.go:62-122 | any domain that begins with a bar keeps exactly the rows that one of the conditions in the list behind the bar keeps, or all rows if there is none; it is refused exactly if what follows is no list or one of these conditions is refused |
| FilterForms.SupportedExactly | internal/domain/filter/parser.go:136-278 | an accepted condition lets through the rows it is true of, in every database, exactly if it is a supported one |
| FilterForms.PrefixBarKeepsAll | internal/domain/filter/parser.go:62-71 | a bar before two conditions filters nothing, though it means that one of them holds |
| FilterForms.EmptyBarKeepsAll | internal/domain/filter/parser.go:62-71 | a bar with no alternative filters nothing, though none holds |
| FilterForms.NestedDomainSkipped | internal/domain/filter/parser.go:99-122 | a domain nested in an OR group is passed over: exactly the rows of the condition beside it are kept, not those of either |
| FilterForms.SecondListSkipped | internal/domain/filter/parser.go:62-71 | a second list behind the bar is passed over |
| FilterForms.StrayItemSkipped | internal/domain/filter/parser.go:76-97 | an item that is no list is passed over, though the domain then holds of no row |
| LikePatterns.LiteralExactly | internal/domain/filter/parser.go:263-267 | the pattern built for a text means containment exactly if the text has no percent sign, underscore or backslash |
| FilterCorrect.ConditionIsAtom | internal/domain/filter/parser.go:136-278 | every single condition, virtual fields included, is read back as a unit whatever text follows it |
| FilterCorrect.ConditionExprMeans | internal/domain/filter/parser.go:136-278 | what a supported condition is read back as lets through exactly the rows the condition is true of, NULLs included |
| FilterCorrect.OrClauseReads | internal/domain/filter/parser.go:99-122 | an OR group is read back as the disjunction of its conditions |
| FilterCorrect.GroupMeans | internal/domain/filter/parser.go:99-122 | the disjunction of a supported group is true exactly when some domain of the group is |
| FilterCorrect.DomainReads | internal/domain/filter/parser.go:53-97 | every clause of a nested domain is read back as its own expression |
| Sql.KeepsExactly | internal/domain/filter/parser.go:76-132 | joined by AND in parentheses, clauses keep exactly the rows all of them are true of |
| DomainFilter.ApplyDomain | internal/domain/filter/parser.go:53-74 | the recursive walk adds exactly the compiled clauses to the query, or fails |
| DomainFilter.ApplyAndConditions | internal/domain/filter/parser.go:76-97 | the loop over a list adds the clauses of its items in order |
| DomainFilter.ApplyOrGroup | internal/domain/filter/parser.go:99-122 | the loop over a group adds one clause, or none if it holds no condition |
| Search.SearchKeepsExactly | internal/domain/crud/search.go:17-84 | with all rewrites and the active filter, a search on a list-shaped domain in the documented forms keeps exactly the active rows of which the domain without its balance conditions is true |
| Search.SearchRows | internal/domain/crud/search.go:17-84 | the same written out: the rows that each item of the domain keeps for itself, company and balance conditions set aside, and of these the active ones, or the inactive ones if asked for |
| Aliases.AliasedSearch | internal/domain/crud/search.go:17-24 | whatever the joined tables hold, a search under an alias keeps exactly the active rows its domain, without balance conditions, is true of when each plain field is read as a column of the alias's own table |
| Search.SearchBinds | internal/domain/crud/search.go:17-84 | every accepted search has as many placeholders as arguments |
| Search.WithoutMeaning | internal/domain/crud/search.go:205-228 | dropping conditions only ever lets more rows through, and none more if the dropped ones are true |
| Search.StripCompanyIdentifier | internal/domain/filter/parser.go:12-26 | the loop drops exactly the three-part conditions on `company_identifier` |
| Search.StripUnsupportedFilters | internal/domain/crud/search.go:205-228 | the loop drops exactly the conditions on `balance`, however capitalised |
| Search.QualifyPreserves | internal/domain/crud/search.go:248-271 | qualifying field names changes neither whether a nested domain compiles nor what it means, if it names no virtual field |
| Search.QualifiesExactly | internal/domain/crud/search.go:248-271 | an accepted condition lets the same rows through under its qualified field, in every database, exactly if the field is not virtual |
| Search.QualifySupported | internal/domain/crud/search.go:248-271 | qualifying keeps a domain in the documented forms |
| Search.PreparedMeaning | internal/domain/crud/search.go:143-157 | the rewritten domain means what the domain without its balance conditions means |
| Search.CrawlComplete | internal/domain/crud/search.go:17-84 | fetching pages while there is a next one gives the whole result, each row once, in as many pages as are needed and one if there are no rows, and every page tells the size of the result |
| Search.PageExact | internal/domain/crud/search.go:58-83 | every page tells the size of the result; without a limit the one page holds every row; with one it holds the rows from `offset` pages on up to the limit, and announces a next page exactly if a row comes after it; a negative offset shows the first page and announces a next one if there are rows at all |
| Exercise.ExerciseRows | internal/domain/cfdi/resume.go:232-271 | the exercise rows are exactly those that meet the remaining conditions on or after 1 January of the anchor's year |
| Exercise.ExerciseTotals | internal/domain/cfdi/resume.go:253-271 | for a domain with a date condition whose readable bounds are less than 300 days apart, the rows totalled are those that meet its other conditions from 1 January of the year of the earliest readable lower bound on, or of the latest row if there is none; for any other domain the filtered rows |
| Exercise.RewrittenExactly | internal/domain/cfdi/resume.go:381-389 | the domain is rewritten exactly if it has a date condition and its readable bounds do not span 300 days or more |
| Exercise.EarliestLowerExact | internal/domain/cfdi/resume.go:166-185 | the anchor is the least instant of the readable lower bounds, if there is one |
| Exercise.WidensExactly | internal/domain/cfdi/resume.go:167-185 | with a readable lower bound the rewrite lets every filtered row through exactly if that 1 January is no later than the least date the bounds allow, or they allow none |
| Exercise.ZonelessBoundsWiden | internal/domain/cfdi/resume.go:232-271 | it does so whenever no readable lower bound carries a zone offset |
| Exercise.OffsetCanNarrow | internal/domain/cfdi/resume.go:138-165 | with an offset there is a bound for which it does not |
| Exercise.NoLowerBoundNarrows | internal/domain/cfdi/resume.go:253-271 | without a lower bound it narrows to the year of the latest row and later |
| Exercise.ExerciseIdempotent | internal/domain/cfdi/resume.go:253-271 | rewriting twice is rewriting once |
| Exercise.SplitConditions | internal/domain/cfdi/isr_deducciones.go:421-469 | the conjunction splits into lower date bounds and the rest |
| Exercise.StripFechaFiltroLowerBounds | internal/domain/cfdi/resume.go:232-251 | the loop drops exactly the conditions on `FechaFiltro` with `>` or `>=` |
| Envelope.CreateCommonEnvelope | internal/infra/sat/envelope.go:43-92 | the text signed is the SignedInfo template with the digest of the content rendered without a signature, the Signature element holds that text, the signature value and the KeyInfo with issuer, serial number and certificate, and the content sent is the very text digested with that element put in at its placeholder (section 4.4.3 of W3C XML Signature Syntax and Processing 1.1) |
| Envelope.SignedTextHoldsDigest | internal/infra/sat/envelope.go:52-60 | the text signed is the fixed text before the placeholder, the digest, and the fixed text after it, so different digests never share a signed text |
| Envelope.KeyInfoHoldsCertificate | internal/infra/sat/envelope.go:62-75 | issuer, serial number and certificate stand in it in their places |
| Envelope.SignatureHoldsParts | internal/infra/sat/envelope.go:76-84 | so do the signed text, the signature value and the KeyInfo in the Signature element |
| Envelope.TemplateReplace | internal/infra/sat/envelope.go:11-17 | for non-nested placeholders and values without braces the result is the same whatever order the keys come in |
| Envelope.ReplaceInTemplate | internal/infra/sat/envelope.go:11-17 | replacing on the text replaces exactly the placeholders of the key |
| Envelope.RenderedWithout | internal/infra/sat/envelope.go:43-60 | rendered with an empty signature, the content is its two parts and nothing between |
| Envelope.RenderedAround | internal/infra/sat/envelope.go:76-84 | the second pass puts the signature between the same two parts |
| Envelope.SolidText | internal/infra/sat/envelope.go:11-17 | trimming leaves a template that begins and ends with text as it is |
| Envelope.TrimExact | internal/infra/sat/envelope.go:11-17 | blanks and line breaks around a text that begins and ends with printable characters are cut off, and nothing else |

## Left out

What the model assumes or does not capture:

- Protocol.NoLostQuery: assumes that a publish that returns has reached its queue (`Bus.Publish` logs and drops handler errors), that a message is handled by one handler at a time, and that its request type is metadata or CFDI; a creation that dies half way shows up as an orphan.
- Protocol: the delay of a scheduled message is floored to whole seconds on sending; a message is only taken up at or after the time it carries. Dead-lettering of empty bodies and the delivery-count limit of the queue are not modelled.
- Protocol: a handler's answer from SAT and its clock reading are fixed when it takes up its message. A row write that fails is a death; a package that cannot be read, or a statement on the `cfdi` table that fails, is passed over as in the code, and a statement that is reported as failed is taken not to have been executed.
- Applied.ProcessedIsShown: assumes one issuer RFC per UUID, and that a package holds the same whenever it is read. The insert of a document is a statement of its own, which does nothing where the CFDI is already there; the payment tables are not part of the world.
- Simulation.XmlMatched: assumes one issuer RFC per UUID, as `Ledger.StatusConverges` does.
- Handlers: database writes succeed; the request's window, name and identifiers of company and workspace, which no decision depends on, are not in the messages.
- Handlers.Worker.HandleDownload: goroutines finish in an arbitrary order, one at a time, as their mutex and the single insert per package allow.
- Handlers.Worker.PublishReverifications: which rows were created lately is a parameter.
- VerifyBackoff.AttemptsBounded: for deliveries no earlier than scheduled and a first handling no earlier than the sent date; the bound does not hold for early deliveries.
- Ledger.StatusConverges: one issuer RFC per UUID; amounts, names and dates other than the cancellation date are not part of the row.
- Payments: name-based identifiers are taken as injective. Amounts are carried along, their rounding and the currency and tax totals are not modelled.
- TenantTables: relations between CFDIs (`cfdi_relation`), payroll data and the status of payments against later imports are not modelled.
- The event that asks for completion after metadata carries neither window nor download type; the model carries neither.
- CfdiChunks: coverage is stated over rows and their dates, not over the windows SAT receives, whose end is cut to midnight.
- Calendar: years 0 to 9999; Mexico's offset from UTC at an instant is a parameter.
- SatEnqueue: checks of the administrator's request before the loop.
- StatusLog: `range_agg` raises an error for a row whose start is after its end; such a row counts as empty here.
- FilterCorrect.CompilerCorrect: `like` is read as `ilike`, ignoring case, as the code has it for both; the text "null" is read as a missing value. Identifiers are single tokens, so names that hold quotes or question marks are outside the model; how two values compare, how values are printed, which letters differ in case only, and how text is trimmed and lower-cased are parameters. The two subqueries of virtual fields are tokens with a meaning of their own.
- Search: fuzzy text search, ordering and the `order_by` qualification. A bare top-level triple takes another path in `qualifyDomainFields` and is outside the list-shaped domains of the lemmas. Only ASCII letters are lower-cased for `balance`.
- Exercise: the aggregates over the rows, and OR groups, which `buildDomainWhereSQL` skips.
- Envelope: cryptography, canonicalisation, and values that hold braces, for which the order of replacement can matter.
- Left out altogether, as library wrappers or because they would only add easy members: HTTP handlers, Stripe, Cognito, storage and queue clients, XML, CSV and SOAP parsing, PDF and XLSX output, migrations, the ISR totals, and the event bus's local asynchronous mode.
