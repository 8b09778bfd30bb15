# Verified model of Azimuthal's core algorithms

A Dafny model of the in-memory cores of the Azimuthal server and proofs of what they promise.
`dafny verify dfyconfig.toml` checks all of it.  No proof relies on induction that the verifier finds
by itself: wherever it would try, the lemma says `{:induction false}`.

Each core is a module.  Code that updates state is a class or a method with a loop, proved equal to
a specification function or predicate of the old state; the lemmas beside it say what that
specification means.

- `RateLimit`: the token-bucket limiter, refined to a meter that keeps one instant per key.
- `LikePatterns`, `Shares`: share coverage in memory and as index-aligned LIKE patterns
  (section 8.5 of ISO/IEC 9075-2, with backslash as the escape character).
- `JqlLex`, `JqlSplit`, `JqlClassify`, `JqlJoin`: the JQL lexer, clause splitter and classifier, and
  what joining two queries' texts does.
- `Xml`, `JiraEntities`, `ConfluenceEntities`, `ConfluenceScan`: the streaming export readers,
  against a meaning over element trees.
- `Census`, `BodyScan`: capped censuses, and the census of page bodies.
- `AssessLedger`, `Mapping`, `JiraAssess`, `ConfluenceAssess`, `Assess`: the reconciling ledger, from
  token streams to the finished report.
- `Backlog`, `Decimal`, `Sorting`: re-ranking, and the rank strings it writes.
- `FileTrees`, `BundleDigest`, `MigrationFingerprint`: what two digests are computed over.
- `SigningKey`, `OrgCreation`: first-writer-wins creation, as state machines over interleaved steps.
- `Capabilities`, `Access`: per-request resolution, and its explanation, over one database.
- `Backup`: backup, verification and restore.
- `CustomFields`: rendering, writing and ordering custom fields.

Parameters stand for what the model does not compute: the clock, a store's answers and failures, the
order a map or a walk is enumerated in, digests, the manifest's encoding, number and date syntax, and
the decoder that turns a page body into tokens.

Where the comments of the code and the code differ, the code is followed:

- `internal/bundle/hash.go:25-29` says the length delimiter makes the bytes unambiguous.  The path has
  no such delimiter; `SameBytesSameFiles` and `NewlinesHideRecords` give the exact condition.
- `internal/core/customfields/customfields.go:643-646` says a write addressed at an entity outside the
  space returns ErrEntityNotFound.  `ClearOutsideTheSpace` clears a value there and is not refused;
  `OutsideTheSpace` says exactly which writes are refused, and with which error.
- `internal/core/access/explain.go:105-110` grants an admin access to any space id, while resolution
  grants the organization's live spaces; `AdminExplanationNeedsTheOrg` says where they agree.  A
  member's explanation reads grants of any organization too; `MemberExplanationNeedsTheOrg` says when
  it agrees.
- `cmd/server/admin.go:177-179` says the second attempt's read cannot fail for the reason the first did.
  Reads skip deleted organizations and the unique constraint does not: `DeletedSlugIsRefused` is a run in
  which it fails, and `ViolationMeansDeleted` and `ViolationIsForeseeable` say when the violation comes back.
- `internal/assess/confluence/storage.go:225-227` takes the depth at the end to tell a whole fragment from
  others.  `ReopenedRoot` is a token stream for which it does not; `WholeMeansNotTruncated` is the condition.
- `cmd/server/backup.go:307` archives the empty key under "storage/", which
  `cmd/server/backup.go:338-344` does not turn back; `RestoreUndoesBackup` says when restore is exact.

## Model

| member | source | states |
|---|---|---|
| `RateLimit.TokenBucketLimiter.Allow` | internal/core/auth/ratelimit.go:81-108 | the whole new state and the answer: sweep when due, refill up to the burst, spend one token or refuse with the wait until one is there |
| `RateLimit.TokenBucketLimiter.PruneLocked` | internal/core/auth/ratelimit.go:114-125 | the sweep drops exactly the buckets idle long enough to be full, and only once per interval |
| `RateLimit.ReachableStates` | internal/core/auth/ratelimit.go:81-125 | from any good state and over any run: tokens stay between 0 and the burst, no bucket is from the future, and every answer is that of a meter that keeps one instant per key and never forgets |
| `RateLimit.LimiterRefinesMeter` | internal/core/auth/ratelimit.go:81-125 | the limiter refines that meter over every run from a fresh limiter |
| `RateLimit.SweepKeepsInstants` | internal/core/auth/ratelimit.go:110-125 | the sweep changes no key's full instant |
| `RateLimit.SurvivorsAreRecent` | internal/core/auth/ratelimit.go:110-125 | a due sweep leaves exactly the buckets not yet full, each used less than burst/rate ago |
| `RateLimit.SweepIsInvisible` | internal/core/auth/ratelimit.go:110-125 | with and without the sweep every call sequence on a forward clock gets the same answers and waits |
| `RateLimit.SweepNeedsAForwardClock` | internal/core/auth/ratelimit.go:110-125 | three calls on a clock that goes back where the sweep does change an answer |
| `RateLimit.KeysAreIsolated` | internal/core/auth/ratelimit.go:81-108 | the answers to a key are those of the run with all other keys' calls removed |
| `RateLimit.AdmissionBound` | internal/core/auth/ratelimit.go:81-125 | in any interval of length T, in any run, a key is admitted at most burst + rate * T times, swept and recreated buckets included |
| `RateLimit.RetryAfterIsExact` | internal/core/auth/ratelimit.go:100-108 | the returned wait is exact: with no other call on the key, a later call is admitted if and only if the wait has passed |
| `LikePatterns.EscapeIsPerCharacter` | internal/core/access/shares.go:236-245 | three replacement passes in this order equal escaping character by character |
| `LikePatterns.EscapedIsLiteral` | internal/core/access/shares.go:236-252 | an escaped text inside a pattern matches exactly itself |
| `LikePatterns.EscapeMatchesOnlyItself` | internal/core/access/shares.go:236-245 | an escaped text as a pattern matches that text only |
| `LikePatterns.SubtreePatternIsPrefix` | internal/core/access/shares.go:247-252 | the subtree pattern matches exactly the strings beginning with root and a dot |
| `Shares.SharedEntities.CoversPage` | internal/core/access/shares.go:117-136 | covered if and only if the id is shared, or a cascade root of the page's space is on or above its path |
| `Shares.SharedEntities.DirectIDs` | internal/core/access/shares.go:141-147 | the shared ids of a type, each once |
| `Shares.SharedEntities.CascadeSubtreeArrays` | internal/core/access/shares.go:193-223 | index-aligned space ids and patterns, one pair per root |
| `Shares.CoversIsSqlOrRootPath` | internal/core/access/shares.go:117-252 | on every input the in-memory check is the database form or a page on a root's own path |
| `Shares.SqlFormIsExact` | internal/core/access/shares.go:117-252 | when pages of one space have distinct paths the two forms cover the same pages |
| `Shares.EqualPathsSeparateTheForms` | internal/core/access/shares.go:123-136 | without distinct paths they differ: a concrete page |
| `Shares.UnpairedArraysWiden` | internal/core/access/shares.go:193-223 | unpaired arrays accept everything the paired ones do and pages of other spaces besides |
| `JqlLex.Lex` | internal/assess/jql/lex.go:56-89 | the token list of the span-based specification |
| `JqlLex.LexQuoted` | internal/assess/jql/lex.go:95-113 | the text between the quotes, escapes undone, and an index past it |
| `JqlLex.LexOperator` | internal/assess/jql/lex.go:117-123 | the maximal run of operator runes |
| `JqlLex.LexWord` | internal/assess/jql/lex.go:127-138 | the word with the calls inside it |
| `JqlLex.ConsumeCall` | internal/assess/jql/lex.go:172-189 | the index past the call, or the start |
| `JqlLex.LexemeAdvances` | internal/assess/jql/lex.go:56-89 | every step moves forward within the input |
| `JqlLex.OperatorEndBounds` | internal/assess/jql/lex.go:117-123 | an operator holds operator runes only and is followed by none |
| `JqlLex.WordEndBounds` | internal/assess/jql/lex.go:127-162 | a word ends at the end of input or before a rune that ends words, and advances |
| `JqlLex.LexTiles` | internal/assess/jql/lex.go:56-189 | on every input spans are ordered, disjoint and non-empty, what is outside them is white space, and each token is read off its own span |
| `JqlLex.QuoteRoundTrip` | internal/assess/jql/lex.go:95-113 | any text quoted with either quote lexes back to one string token of that text |
| `JqlLex.CallIsBalanced` | internal/assess/jql/lex.go:172-189 | a call is consumed up to an index if and only if that stretch is one balanced argument list, quotes respected |
| `JqlSplit.Splitter.FlushClause` | internal/assess/jql/classify.go:300-305 | the new state after a clause ends |
| `JqlSplit.Splitter.FeedToken` | internal/assess/jql/classify.go:307-320 | the new state after any token |
| `JqlSplit.Splitter.OpenParen` | internal/assess/jql/classify.go:322-325 | depth and grouping |
| `JqlSplit.Splitter.CloseParen` | internal/assess/jql/classify.go:327-330 | depth, and the end of a value list |
| `JqlSplit.Splitter.AppendToken` | internal/assess/jql/classify.go:332-335 | the token kept, and the start of a value list |
| `JqlSplit.Split` | internal/assess/jql/classify.go:276-283 | the clauses of a token list |
| `JqlSplit.SplitConserves` | internal/assess/jql/classify.go:276-335 | the clauses concatenated are the input minus parentheses, top-level connectives and clause-leading top-level NOTs; no clause is empty |
| `JqlSplit.ValueListMeaning` | internal/assess/jql/classify.go:322-335 | the flag holds exactly while a top-level IN is open, and the depth is the number of open parentheses |
| `JqlSplit.SplitAtConnective` | internal/assess/jql/classify.go:276-335 | splitting distributes over a top-level connective |
| `JqlSplit.OrMarksFirst` | internal/assess/jql/classify.go:300-320 | an OR marks the first clause of what follows and nothing else |
| `JqlClassify.Classify` | internal/assess/jql/classify.go:228-247 | the classification of the trimmed text's tokens |
| `JqlClassify.SplitOrderBy` | internal/assess/jql/classify.go:262-272 | the body and the sort |
| `JqlClassify.ClassifyOrderBy` | internal/assess/jql/classify.go:688-704 | the sort's findings: one for several keys, one for each that cannot be sorted by |
| `JqlClassify.SortSurvives` | internal/assess/jql/classify.go:688-704 | the sort survives if and only if it names at most one key and that one can be sorted by; any other sort makes the whole query inexpressible |
| `JqlClassify.CrossFieldOr` | internal/assess/jql/classify.go:663-674 | found if and only if two OR-joined neighbours are on different fields |
| `JqlClassify.StructuralFindings` | internal/assess/jql/classify.go:628-655 | the findings on grouping, negation and cross-field OR |
| `JqlClassify.OverallVerdict` | internal/assess/jql/classify.go:725-737 | the worst of clauses and structure |
| `JqlClassify.DateVerdictIsWorst` | internal/assess/jql/classify.go:384-457 | a date clause is as bad as the worse of operator and value, and not expressible without a column or bound |
| `JqlClassify.FieldVerdictIsWorst` | internal/assess/jql/classify.go:348-377 | a mapped comparison is the worst of field, function operand and negation |
| `JqlClassify.NegationSurvivesOnMembership` | internal/assess/jql/classify.go:522-555 | negation survives exactly on the membership fields |
| `JqlClassify.OrderByOfJoin` | internal/assess/jql/classify.go:262-272 | the sort of a joined query is the second part's |
| `JqlClassify.JoinedVerdict` | internal/assess/jql/classify.go:628-757 | the verdict of two clause lists put together, structure included, with its one exception at the seam |
| `JqlClassify.AndIsWorse` | internal/assess/jql/classify.go:228-247 | "first AND second" has the worse of the two verdicts, when first ends outside parentheses and value lists and has no sort |
| `JqlClassify.OrNeedsOneField` | internal/assess/jql/classify.go:663-674 | "first OR second" too, unless the clauses that meet are on different fields, and then nothing survives |
| `JqlJoin.TokensOfJoin` | internal/assess/jql/lex.go:56-189 | a text that leaves no quote, argument list or bracket open, followed by white space, gives its own tokens and then those of the rest, wherever they stand |
| `JqlJoin.AndOfTexts` | internal/assess/jql/classify.go:228-247 | of two saved queries' texts, untrimmed: the text joined by AND has the worse of their verdicts, when the first leaves nothing open and has no sort, and the second does not begin with an OR |
| `JqlJoin.OrOfTexts` | internal/assess/jql/classify.go:228-247 | joined by OR too, unless the clauses that meet are on different fields, and then nothing survives |
| `Xml.SkipIsExact` | internal/assess/jira/entities.go:207-231 | skipping consumes exactly the element just opened |
| `JiraEntities.ChildFieldReader.ConsumeToken` | internal/assess/jira/entities.go:272-295 | the reader's whole state after a token, and whether the row ended |
| `JiraEntities.ChildFieldReader.Close` | internal/assess/jira/entities.go:301-309 | a closed child settles its field only if none is settled |
| `JiraEntities.ReadRow` | internal/assess/jira/entities.go:234-269 | the row and where the stream stands after it |
| `JiraEntities.Scanner.Consume` | internal/assess/jira/entities.go:207-231 | count, then skip or decode and deliver |
| `JiraEntities.Scanner.ScanRows` | internal/assess/jira/entities.go:185-204 | the scan from any state |
| `JiraEntities.Scanner.ScanStream` | internal/assess/jira/entities.go:140-204 | the scan of a stream, or that it is no export |
| `JiraEntities.RowIsExact` | internal/assess/jira/entities.go:234-309 | on the tokens of a well-formed row the reader stops exactly after it with the fields of its tree |
| `JiraEntities.FieldMeaning` | internal/assess/jira/entities.go:234-309 | a field is its attribute if present, else all text of the first child of that name, else absent |
| `JiraEntities.ExportIsItsTree` | internal/assess/jira/entities.go:140-231 | a complete export counts each child of the root once and delivers each wanted one once, in order |
| `JiraEntities.AnyStreamIsAccounted` | internal/assess/jira/entities.go:140-231 | on any stream the per-name counts sum to the rows and deliveries are at most the rows; a broken stream is reported |
| `JiraEntities.StopsAtAFailure` | internal/assess/jira/entities.go:207-231 | on any stream the scan ends early with an error if and only if the handler of a delivered row failed |
| `JiraEntities.BrokenIsPrefix` | internal/assess/jira/entities.go:140-231 | wherever a stream breaks, what was delivered is an initial part of what the whole would deliver |
| `ConfluenceEntities.ElementText` | internal/assess/confluence/entities.go:416-439 | the element's text and the stream after it |
| `ConfluenceEntities.ElementID` | internal/assess/confluence/entities.go:383-412 | the first non-empty id inside, and the stream after the element |
| `ConfluenceEntities.ObjectReader.ReadProperty` | internal/assess/confluence/entities.go:273-302 | reference or text, stored under the property's name |
| `ConfluenceEntities.ObjectReader.ReadCollection` | internal/assess/confluence/entities.go:333-361 | the member ids in order |
| `ConfluenceEntities.DecodeObject` | internal/assess/confluence/entities.go:219-245 | the object and the stream after it |
| `ConfluenceEntities.TextIsExact` | internal/assess/confluence/entities.go:416-439 | text at any depth, exactly up to the element's own end tag |
| `ConfluenceEntities.PropertyIsExact` | internal/assess/confluence/entities.go:273-330 | a property consumes exactly its element and yields the last nested id and its own text |
| `ConfluenceEntities.ElementIDIsExact` | internal/assess/confluence/entities.go:383-412 | an element consumes exactly itself and yields the first id in it |
| `ConfluenceEntities.CollectionIsExact` | internal/assess/confluence/entities.go:333-373 | a collection consumes exactly its element and yields its members' ids in order |
| `ConfluenceEntities.ObjectIsExact` | internal/assess/confluence/entities.go:219-266 | decoding consumes exactly the object's element and yields the object its children describe |
| `ConfluenceScan.Scanner.Consume` | internal/assess/confluence/entities.go:187-216 | count, then skip or decode and deliver |
| `ConfluenceScan.Scanner.ScanObjects` | internal/assess/confluence/entities.go:164-183 | the scan from any state |
| `ConfluenceScan.Scanner.ScanStream` | internal/assess/confluence/entities.go:125-183 | the scan of a stream, or that it is no export |
| `ConfluenceScan.ExportIsItsTree` | internal/assess/confluence/entities.go:125-216 | the total is the number of outermost object elements, and each wanted one is delivered once, in order, as its tree describes |
| `ConfluenceScan.AnyStreamIsAccounted` | internal/assess/confluence/entities.go:125-216 | on any stream the per-class counts sum to the total and deliveries are at most the total; a broken stream is always reported |
| `ConfluenceScan.BrokenIsPrefix` | internal/assess/confluence/entities.go:125-216 | wherever a stream breaks, what was delivered is an initial part of what the whole would deliver |
| `Census.TotalsStayExact` | internal/assess/confluence/storage.go:152-162 | whatever is counted, the sum grows by exactly that |
| `Census.SizeStaysBounded` | internal/assess/confluence/storage.go:152-162 | at most one name beyond the cap |
| `Census.BelowCapIsExact` | internal/assess/confluence/storage.go:152-162 | while the names fit the map is the exact histogram |
| `Census.CapNotReached` | internal/assess/confluence/storage.go:152-162 | and the overflow name is not used |
| `Census.OrderIsIrrelevantBelowCap` | internal/assess/confluence/storage.go:346-355 | and the order of additions does not matter |
| `Census.MergeAddsUp` | internal/assess/confluence/storage.go:346-355 | merging adds totals exactly, and name by name while the names fit, in any key order |
| `Census.SortedKeys` | internal/assess/confluence/storage.go:183-190 | the one listing of a map's names in order, whatever order the map is walked in |
| `Census.SumCounts` | internal/assess/confluence/storage.go:173-179 | the sum of the counts |
| `Census.ClassesPartition` | internal/assess/jira_assess.go:304-330 | names put in four classes: the class sums add up to the sum |
| `BodyScan.BodyCensus.Count` | internal/assess/confluence/storage.go:152-162 | one more of a name, and whether the cap was hit |
| `BodyScan.BodyCensus.ScanTokens` | internal/assess/confluence/storage.go:233-260 | the census after a token stream |
| `BodyScan.BodyCensus.Merge` | internal/assess/confluence/storage.go:330-355 | the whole new census: each map folded in the order of the names, past the cap under the overflow name, and the flags joined |
| `BodyScan.MergeIsExact` | internal/assess/confluence/storage.go:330-355 | merging keeps totals exact and size bounded, and while the names fit it is the pointwise sum and the cap is not reported |
| `BodyScan.RecordCountsOnce` | internal/assess/confluence/storage.go:291-304 | an element is counted in exactly one of the three maps |
| `BodyScan.ScanCountsElements` | internal/assess/confluence/storage.go:233-260 | on any stream every element inside the root is counted once, and truncation is reported exactly when opening tags outnumber closing ones by anything but the root's one |
| `BodyScan.FragmentIsCounted` | internal/assess/confluence/storage.go:209-260 | a whole fragment: every element counted, nothing truncated |
| `BodyScan.WholeMeansNotTruncated` | internal/assess/confluence/storage.go:209-260 | a body in its wrapping root is whole elements and text if and only if it is not called truncated and never closes the root |
| `BodyScan.ReopenedRoot` | internal/assess/confluence/storage.go:233-260 | a body that closes the root and leaves another element open is not whole, and not called truncated |
| `AssessLedger.Class.Add` | internal/assess/ledger.go:146-151 | a finding is appended unless its count is not positive |
| `AssessLedger.Class.Classified` | internal/assess/ledger.go:154-160 | the sum of the findings |
| `AssessLedger.Class.Reconcile` | internal/assess/ledger.go:258-296 | succeeds if and only if the class closes, and then only reorders its findings |
| `AssessLedger.Ledger.ClassNamed` | internal/assess/ledger.go:180-189 | the class of that name, created at the end if there is none |
| `AssessLedger.Ledger.RowTotal` | internal/assess/ledger.go:205-213 | the sum over the row-based classes |
| `AssessLedger.Ledger.TotalBy` | internal/assess/ledger.go:233-239 | one bucket's total |
| `AssessLedger.Ledger.ReconcileRows` | internal/assess/ledger.go:223-230 | succeeds if and only if the row-based classes account for the parsed rows |
| `AssessLedger.Ledger.Reconcile` | internal/assess/ledger.go:249-256 | succeeds if and only if every class closes |
| `AssessLedger.BucketTotalsClose` | internal/assess/ledger.go:192-239 | in a reconciled ledger the four bucket totals sum to the grand total |
| `AssessLedger.ReportOrderIsTotal` | internal/assess/ledger.go:285-296 | the report order is total on findings that reconcile |
| `AssessLedger.ReportOrderIsStrict` | internal/assess/ledger.go:285-296 | and no two different findings tie |
| `AssessLedger.NormalisedStaysReconciled` | internal/assess/ledger.go:258-296 | sorting a class keeps it reconciled and is a permutation |
| `Mapping.RegisteredAreHandled` | internal/assess/jira_assess.go:87-105 | a name is registered with the scanner if and only if it has a handler |
| `JiraAssess.WantedAreHandled` | internal/assess/jira_assess.go:87-105 | an entity is delivered exactly when a handler takes it |
| `JiraAssess.Collector.Handle` | internal/assess/jira_assess.go:112-169 | the tally after one row |
| `JiraAssess.Collector.HandleAll` | internal/assess/jira_assess.go:87-169 | the tally after a list of rows |
| `JiraAssess.Resolve` | internal/assess/jira_assess.go:173-183 | ids traded for names: each name counts the sum over the ids traded for it, the names are exactly those, and the total stays |
| `JiraAssess.RowsClaimedOnce` | internal/assess/jira_assess.go:410-414 | each delivered row is claimed by exactly one class, except a custom field of no type, so never more rows are claimed than delivered |
| `JiraAssess.FoldIssues` | internal/assess/jira_assess.go:230-302 | the issue classes appended |
| `JiraAssess.FoldCustomFields` | internal/assess/jira_assess.go:304-330 | the field classes appended |
| `JiraAssess.FoldComments` | internal/assess/jira_assess.go:332-355 | the comment, activity and attachment classes appended |
| `JiraAssess.FoldRemainder` | internal/assess/jira_assess.go:374-403 | links, worklogs, lookups and the unclamped remainder appended |
| `JiraAssess.FoldFilters` | internal/assess/jira_assess.go:439-455 | the saved filters by verdict |
| `JiraAssess.JiraLedgerCloses` | internal/assess/jira_assess.go:192-414 | whatever was tallied, the Jira classes account for the rows, and every class closes if and only if no row was claimed twice |
| `ConfluenceAssess.WantedAreHandled` | internal/assess/confluence_assess.go:57-75 | an object is delivered exactly when a handler takes it |
| `ConfluenceAssess.Collector.Handle` | internal/assess/confluence_assess.go:57-108 | the tally after one object, and the macro census by name |
| `ConfluenceAssess.ObjectsClaimedOnce` | internal/assess/confluence_assess.go:238-241 | each delivered object is claimed by exactly one class |
| `ConfluenceAssess.MacrosTotal` | internal/assess/confluence_assess.go:88-108 | over all bodies no macro is lost or counted twice, however many names there are |
| `ConfluenceAssess.MacrosByName` | internal/assess/confluence_assess.go:88-108 | while the names fit under the cap, each name's count is the sum of its counts in the bodies |
| `ConfluenceAssess.FoldMacros` | internal/assess/confluence_assess.go:175-205 | the derived macro class appended |
| `ConfluenceAssess.FoldRemainder` | internal/assess/confluence_assess.go:224-236 | bodies and the unclamped remainder appended |
| `ConfluenceAssess.ConfluenceLedgerCloses` | internal/assess/confluence_assess.go:110-241 | whatever was tallied, the Confluence classes account for the objects, and every class closes if and only if no object was claimed twice |
| `Assess.CollectJira` | internal/assess/jira_assess.go:77-110 | scan and tally of any Jira stream, or that it is no export, or that a handler failed |
| `Assess.AssessJira` | internal/assess/jira_assess.go:77-85 | the Jira half: its classes are exactly those of the delivered rows, tallied and resolved |
| `Assess.AssessConfluence` | internal/assess/confluence_assess.go:47-55 | the Confluence half, after whatever is in the ledger: its classes are exactly those of the delivered objects, tallied, and of the macros of their bodies, by name |
| `Assess.StandardReadsThrough` | internal/assess/jira_assess.go:87-169 | the run's own handlers never fail, so a Jira stream that is an export is read through |
| `Assess.JiraReportCloses` | internal/assess/jira_assess.go:192-414 | for every Jira stream, broken or not, the report closes and accounts for the counted rows |
| `Assess.ConfluenceReportCloses` | internal/assess/confluence_assess.go:110-241 | for every Confluence stream, broken or not, the report closes and accounts for the counted objects |
| `Assess.Closes` | internal/assess/ledger.go:223-256 | both checks, and the findings put in order |
| `Assess.RunReaders` | internal/assess/run.go:174-213 | for every pair of streams, either absent or broken: the arithmetic never fails; the only failures are streams that are no export and a Jira handler that fails; the report is both halves in order and its row total the rows read |
| `Backlog.RankItemRelative` | internal/core/projects/backlog.go:107-157 | over any listing and any sort of it: a failed listing changes nothing; not found if and only if the item is not in the space; else the first writes of the new order carry their new ranks and all other items their old ones, up to the first write that fails |
| `Backlog.FindInsertIndex` | internal/core/projects/backlog.go:128-144 | where the item goes among the others |
| `Backlog.NewOrderIsAPermutation` | internal/core/projects/backlog.go:115-149 | no item is lost or doubled |
| `Backlog.OthersKeepTheirOrder` | internal/core/projects/backlog.go:115-149 | the other items keep their sorted order and the moved item is where it was inserted |
| `Backlog.LandsWhereDropped` | internal/core/projects/backlog.go:128-149 | right before the found neighbour, right after it, or last; `before` wins, and a neighbour not found means last |
| `Backlog.MovingTwiceIsMovingOnce` | internal/core/projects/backlog.go:115-149 | putting the item again where it was just put leaves the order as it is |
| `Backlog.RanksIncrease` | internal/core/projects/backlog.go:151-152 | "0|%06d:" increases with the position up to 999,999 |
| `Backlog.RankedIsSorted` | internal/core/projects/backlog.go:151-152 | a freshly ranked order is sorted by rank if and only if it has at most 999,999 items |
| `Backlog.ResortingKeepsTheOrder` | internal/core/projects/backlog.go:112-157 | listing and sorting again returns exactly the written order if and only if it has at most 999,999 items |
| `Backlog.RepeatedMove` | internal/core/projects/backlog.go:107-157 | two runs through the store, each listing, sorting, moving and writing: the second changes nothing if and only if there are at most 999,999 items, or one more and the moved one was put last |
| `Decimal.PaddedIsDigits` | internal/core/projects/backlog.go:152 | zero padding of a number that fits is its fixed-width digits |
| `Decimal.DigitsCompare` | internal/core/projects/backlog.go:152 | at one width, strings compare as the numbers do |
| `FileTrees.OneListing` | internal/bundle/hash.go:34-48 | a tree has one sorted listing, so the order of the walk does not matter |
| `BundleDigest.HashOne` | internal/bundle/hash.go:77-94 | what one file feeds to the hash |
| `BundleDigest.Digest` | internal/bundle/hash.go:34-48 | what the hash is fed: every file in path order, or the first that cannot be read |
| `BundleDigest.TrailerTells` | internal/bundle/hash.go:85-93 | the trailing length gives back the content, decoding from the end |
| `BundleDigest.SameBytesSameFiles` | internal/bundle/hash.go:25-48 | of the lists that feed the same bytes as files with one-line paths, only the list of those files has one-line paths |
| `BundleDigest.NewlinesHideRecords` | internal/bundle/hash.go:25-48 | from two files on a list of one file feeds the same bytes, so the claim of the comment needs one-line paths |
| `BundleDigest.AnotherTreeNeedsTwoFiles` | internal/bundle/hash.go:25-48 | a tree with one-line paths shares its bytes with another tree if and only if it has two files or more |
| `BundleDigest.TwoTreesAlike` | internal/bundle/hash.go:25-48 | the empty files a and b, and one file whose path runs over four lines, feed the same bytes |
| `BundleDigest.DigestTellsTreesApart` | internal/bundle/hash.go:25-48 | two trees with one-line paths feed the same bytes if and only if they are equal |
| `MigrationFingerprint.FingerprintMigrations` | internal/testutil/db.go:402-425 | what the fingerprint is fed, or which error |
| `MigrationFingerprint.RecordTells` | internal/testutil/db.go:417-423 | a record is decoded from the front, names of any shape included |
| `MigrationFingerprint.FingerprintTellsSetsApart` | internal/testutil/db.go:402-425 | two migration sets feed the same bytes if and only if they are equal |
| `SigningKey.StepKeepsAgreement` | internal/core/auth/keys.go:79-116 | every step of any instance keeps: whoever returned holds the stored key, and whoever is past the insert can read one |
| `SigningKey.StoreIsForGood` | internal/core/auth/keys.go:79-116 | a stored key never changes |
| `SigningKey.OneKeyForAll` | internal/core/auth/keys.go:73-116 | any two instances that return, at any two times of any interleaving, return the one stored key |
| `SigningKey.EmptyStoreIsNeverSpoiled` | internal/core/auth/keys.go:79-116 | a store that began empty only ever holds a key, so no instance fails to parse it |
| `SigningKey.ImportedKeyIsKept` | internal/core/auth/keys.go:74-77 | if all instances import one key, that key is what all return |
| `SigningKey.NeverStuck` | internal/core/auth/keys.go:79-116 | until it answers, an instance can always take a step that is no failure |
| `SigningKey.StepsRunOut` | internal/core/auth/keys.go:79-116 | an instance answers within four steps of its own |
| `OrgCreation.StepKeepsSettled` | cmd/server/admin.go:174-248 | every step of any caller, and every deletion, which marks a row and leaves its slug taken, keeps the invariant |
| `OrgCreation.OneOrgPerSlug` | cmd/server/admin.go:174-241 | in every reachable state one organization per slug, deleted ones counted, seeded as soon as visible, and the loop has not run out |
| `OrgCreation.SuccessesAgree` | cmd/server/admin.go:174-200 | all successes for a slug return the id of its one organization, deleted since or not |
| `OrgCreation.ViolationMeansDeleted` | cmd/server/admin.go:178-248 | on every run, with deletions at any time: a caller that meets no failing database gets the violation back if its slug belongs to a deleted organization at some time when it has still to read, and otherwise only if its own seeding or commit raised one |
| `OrgCreation.ViolationIsForeseeable` | cmd/server/admin.go:178-248 | if the slug is not deleted during the run and the caller's seeding raises none, the violation comes back if and only if the slug belonged to a deleted organization before the run |
| `OrgCreation.DeletedSlugIsRefused` | internal/db/queries/organizations.sql:8-22 | a lone caller for any slug of a deleted organization, nothing else happening: both reads find nothing and both inserts are refused |
| `OrgCreation.DeletedWinner` | cmd/server/admin.go:178-200 | a run on a slug nobody had used: a caller loses an insert, the winner is deleted, and the caller loses again |
| `OrgCreation.ClashesTwice` | cmd/server/admin.go:178-248 | and a run of one caller, nothing deleted, whose seeding clashes twice |
| `OrgCreation.NoDeadlock` | cmd/server/admin.go:209-241 | callers waiting for each other's inserts never wait in a circle |
| `OrgCreation.StepsRunOut` | cmd/server/admin.go:174-200 | a caller answers within six steps of its own |
| `Capabilities.ParseUndoesName` | internal/core/access/capability.go:35-58 | a string parses to a role if and only if it is that role's wire form |
| `Capabilities.RolesAreCumulative` | internal/core/access/capability.go:91-133 | a higher role grants all a lower one does, and no role grants an org-level capability |
| `Access.Resolution.AddRows` | internal/core/access/resolver.go:111-128 | the highest parseable role per space |
| `Access.Resolve` | internal/core/access/resolver.go:79-155 | the role on every space, for admins and members, from the stores' answers; strangers get none |
| `Access.ReadableIsHavingARole` | internal/core/access/resolver.go:132-197 | a space is readable if and only if there is a role on it, every capability on a space needs that, and org-wide capabilities belong to admins alone |
| `Access.Explanation.CollectChain` | internal/core/access/explain.go:145-159 | the chain and the best role of the parseable matches |
| `Access.AnnotateMatch` | internal/core/access/explain.go:160-184 | the link of a match, scanning the path from the granted team upwards |
| `Access.Explain` | internal/core/access/explain.go:94-141 | role, access, flags and chain for strangers, admins and members |
| `Access.SameGrants` | internal/db/queries/space_grants.sql:65-114 | on a live space of the organization the resolution query and the explanation query see the same grants |
| `Access.ExplainedIsEnforced` | internal/core/access/explain.go:94-141 | over one database, for a member on a live space of the organization, the explained role is the enforced one, whatever order the queries answer in |
| `Access.AdminExplanationNeedsTheOrg` | internal/core/access/explain.go:105-110 | an admin's explanation agrees with enforcement if and only if the space is a live space of the organization |
| `Access.MemberExplanationNeedsTheOrg` | internal/core/access/explain.go:112-141 | on any space that is not deleted a member's explained role is the enforced one if and only if the space is the organization's, or it is not open to its organization and no grant with a proper role matches |
| `Access.ExplanationLeavesTheOrg` | internal/core/access/explain.go:112-141 | on an undeleted space of another organization they can disagree: a concrete database |
| `Access.ExplanationAgreesWithResolution` | internal/core/access/explain.go:94-141 | over one database, the explanation's role and access are those resolution gives, for admins and members, under exactly those conditions |
| `Access.TeamLinksNameATeam` | internal/core/access/explain.go:160-184 | every team link names the deepest of the user's teams on the path, at its distance; zero if and only if the user is a direct member |
| `Access.ChainIsTheParseableMatches` | internal/core/access/explain.go:145-159 | exactly the matches with a proper role are explained |
| `Backup.BackupManifest.RecordFile` | cmd/server/backup.go:103-110 | name appended, digest recorded |
| `Backup.BackupObjectStorage` | cmd/server/backup.go:278-321 | every object of the bucket is archived under its prefixed name and recorded, in any listing order, or one cannot be read |
| `Backup.RunBackup` | cmd/server/backup.go:113-191 | the archive: the dump, the objects, and last the manifest of them |
| `Backup.ReadArchive` | cmd/server/restore.go:118-150 | the archive as a map |
| `Backup.VerifyManifestedFiles` | cmd/server/restore.go:202-233 | passes if and only if every listed file is there and, unless there are no digests, has its digest; else names a file with that defect |
| `Backup.ValidateManifest` | cmd/server/restore.go:154-181 | valid if and only if the manifest is there, decodes and verifies |
| `Backup.RestoreObjectStorage` | cmd/server/restore.go:319-360 | after any walk every key that is fed holds an object fed to it and no other key changes; on failure, exactly the entries walked |
| `Backup.RunRestore` | cmd/server/restore.go:67-116 | nothing is touched unless the archive is valid, no server runs and there is a dump; objects only after the database |
| `Backup.BackupVerifies` | cmd/server/restore.go:202-233 | an archive read back verifies and holds exactly the dump and the bucket |
| `Backup.RestoreOverwrites` | cmd/server/restore.go:319-360 | restoring puts every backed-up object over what is there and touches nothing else |
| `Backup.RestoreUndoesBackup` | cmd/server/restore.go:319-360 | restoring into an empty bucket rebuilds it, in any order, if and only if no object has the empty key |
| `Backup.AlteredArchive` | cmd/server/restore.go:184-233 | an altered archive with the backup's manifest passes if and only if the dump and every object have their old digests |
| `Backup.StrippedDigestIsRefused` | cmd/server/restore.go:198-220 | a listed file without a digest beside files with one is refused |
| `Backup.OldManifestsAskForPresence` | cmd/server/restore.go:188-215 | with no digests at all only presence is asked for |
| `CustomFields.ComposeRendered` | internal/core/customfields/customfields.go:590-636 | the rendered list |
| `CustomFields.FieldService.SetValue` | internal/core/customfields/customfields.go:647-712 | the result and the new values, for every kind of field, value and entity |
| `CustomFields.IsRearrangement` | internal/core/customfields/customfields.go:508-525 | accepted if and only if the request is a permutation of the form |
| `CustomFields.FieldService.ReorderForm` | internal/core/customfields/customfields.go:500-537 | then the form has exactly that order and no attachment changed; else nothing changed |
| `CustomFields.OnFormIsWritable` | internal/core/customfields/customfields.go:680-699 | a slug is on the form if and only if a write to it would be accepted |
| `CustomFields.RenderingIsComplete` | internal/core/customfields/customfields.go:590-636 | one field per slug, and each is the form's field if writable, else a read-only stored value |
| `CustomFields.EveryValueAppears` | internal/core/customfields/customfields.go:590-636 | every stored value is shown with its value, and every writable slug is shown |
| `CustomFields.LegacyIsReadOnly` | internal/core/customfields/customfields.go:590-699 | a field is shown as legacy if and only if a write to it would be refused as read-only |
| `CustomFields.FormComesFirst` | internal/core/customfields/customfields.go:590-636 | the active attached fields come first, in form order, once each, and only legacy ones follow |
| `CustomFields.WriteThenRender` | internal/core/customfields/customfields.go:567-668 | after a successful write the field shows the trimmed value and no other value changes; a refused write changes none; for an entity outside the space nothing is stored and nothing shown |
| `CustomFields.OutsideTheSpace` | internal/core/customfields/customfields.go:643-668 | a write to a writable field of an entity outside the space is refused if and only if it has a value or the field is required, and with which error |
| `CustomFields.ClearOutsideTheSpace` | internal/core/customfields/customfields.go:643-668 | clearing an optional field there succeeds: a concrete form and value, and nothing changes |
| `CustomFields.RequiredStaysPresent` | internal/core/customfields/customfields.go:704-712 | no write clears a value under a required field |

## Left out

- RateLimit: time and tokens are reals; float64 rounding and the truncation of the wait to whole nanoseconds are not modelled, and rate and burst are positive as the configuration enforces.
- Text: upper and lower case are ASCII only; Unicode case folding is not modelled.
- LikePatterns: a pattern that ends in the escape character matches nothing, where a database may report an error.
- JqlClassify: reason texts and the raw text of a clause are not modelled; a clause keeps its field, filter field and verdict.  Whether a query and a saved view mean the same is not what the code decides.
- Xml: tokens are the input; encodings, entity expansion and the decoder's leniency are not modelled.
- JiraEntities: handlers see the delivered rows after the scan instead of during it; where a handler fails is a predicate of the row.  The wording of a truncation reason is not modelled.
- ConfluenceEntities: fields of an object that the assessment never reads are kept, but the streaming memory bound is not modelled.
- AssessLedger: reasons are shortened, example names and notes are dropped.
- JiraAssess: a collector's fields are grouped into records; project names and the key registry's collisions between exports are not modelled, only whether a key must change.
- ConfluenceAssess: the same grouping.
- Assess: archives and their attachment counts are not modelled; streams are the input, as for callers that have them already.
- Mapping: CoerceSlug's removal of doubled underscores is one pass of a recursive function.
- Backlog: an item is its id and rank; its other fields are written back unchanged.  The library sort is insertion; the contracts hold for every sorted listing.
- BundleDigest: SHA-256 is a function of the bytes fed; nothing is proved about the hash.  A character stands for a byte.
- MigrationFingerprint: the sixteen-digit cut of the hash is not modelled.
- SigningKey: key generation, PEM and RSA are abstract; a key is a number.
- OrgCreation: one display name's slug is given; slugifying it is not modelled.  A failed commit either took effect or did not, and a unique violation while seeding or committing is rolled back; what seeding writes is not modelled.
- Access: the two SQL queries are predicates over one database; pagination, order and indexes are not modelled.  Sharing is in Shares.
- Backup: tar, gzip, pg_dump, psql and the object store's protocol are not modelled; the bucket is a map.
- CustomFields: one form and one entity; creating, archiving and scoping definitions and the entity-type vocabulary are not modelled, and positions are the order of the form.
- HTTP handlers, middleware, the web front end, background jobs, configuration, CLI output and report text have no part in the model.
