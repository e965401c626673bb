# Verified model of the blocklist pipeline

This project models the path that takes evidence rows to published blocklists: reading feeds,
the L1 tables and the OpenCTI stream that write them, the policy that decides on each domain,
the rule algebra behind the files, and the snapshot directory that publishes them. It proves
what each part keeps over whole runs: determinism, refinement of the loops by simple
definitions, and safety when a process dies between any two steps.

Code that changes things step by step is imperative here too: loops are methods with
invariants and objects are classes whose methods are proved against functions of the old
state. The theorems are lemmas about those functions, so they hold of the methods.

| file | content |
|---|---|
| Names, Rules, RuleOrder, Sorting, Sets | names as label sequences, byte order, rules, sorting |
| Collapse, Minimality, Rendering | `internal/render`: cover elimination, when it is minimal, the text of a file |
| DomainName, Feed, FeedFacts, BareSuffix, RoundTrip | `internal/domainname`, `internal/feed`: parsing, its books, the public suffix guard, print and parse |
| Match | `internal/match`: lookup along ancestors |
| Policy, GroupBy, PolicyRun, Decisions, EvaluateAll | `internal/policy` and the policy run of `internal/store`, from the evidence query to the decision table |
| Tables, Store, TableFacts, TableRuns, Commute, Grace, Replay | the L1 tables as maps and the transactions on them |
| Consumer, Stream, Runner | `internal/syncconsumer`: the checkpoint protocol as a state machine and as code |
| Token | the token cache |
| Paths, Disk, SnapshotSet, SnapshotStore, Dedup, SnapshotSafety, SnapshotRuns, VersionDirs, Pruning, PartialRemovals, RollbackNames, SnapshotHazards | `internal/snapshot`: paths, system calls, the set under construction, histories with crashes, what Rollback accepts |
| Builder, Coverage, Publishing, Rebuild, BuildKeys, SetDigest, WriteOrder, Originals, BuildRuns | `internal/builder`: tenant files, what they block, publish, the digest, the write order and the originals of shared files, histories with builds |

Dafny 4.11 verifies the project with `dafny verify dfyconfig.toml --resource-limit 2000000
--verification-time-limit 0`.

## How the pieces are modelled

- Time is an integer. A SHA-256 digest is an injective symbol. The IDNA conversion, the IP
  address parser, the public suffix list and the lower case of non-ASCII characters are
  functions passed in; where a theorem needs a property of them (IDNA leaves its own output
  alone) it is a hypothesis of that theorem.
- A table is a map, a transaction one atomic step on it. Domains are keyed by name and match
  type, not by serial id.
- The snapshot root is a map from names to directories and files. Every operation is the list
  of system calls it issues; a crash or a failing call cuts the list anywhere. A file between
  its creation and its last write is torn. RemoveAll is one call; `PartialRemovals` proves what
  still holds when it is not. A version name is a path that is cleaned before it is looked up;
  what lies outside of the root is a function passed in.
- The event stream is a finite list with distinct, nonempty ids. The server may disconnect at
  any point and answers a reconnect by its rules; the process may die at any point.

## Where the code and its comments differ

- `render.go:57-58` promises a minimal list. The sort compares bytes and the hyphen sorts
  before the dot, so descendants need not follow their ancestor; coverage is always preserved,
  minimality holds under the exact condition of `Minimality.CollapseMinimalIff`.
- `domainname.go:93-94` tests for IP addresses before IDNA maps digits, see
  `DomainNames.MappedDigitsSlipThrough`; exactly when that matters is
  `DomainNames.CanonicalizeIdempotentIff`.
- `parse.go:138-142` means to stop on a bare top-level domain but reads the raw field: a dot at
  either end turns it into a counted suffix, a comment or modifier glued to it hides it. The
  exact condition is `BareSuffixes.GuardExactly`, the spellings are in
  `BareSuffixes.SpellingsDiffer`.
- `consumer.go:112-126` moves the checkpoint past an event that failed
  (`Stream.FailedEventIsPassedOver`). An event is in the tables exactly under the condition of
  `Stream.EventIsInTheTablesIff`.
- `policy.go:192-193` says that an indicator an analyst revokes takes its domain off the
  blocklist however many feeds still list it. The query joins by category, so only the
  categories that the indicator itself asserts are allowed
  (`EvaluateAll.RevocationReachesOwnCategories`); the rest stays blocked
  (`EvaluateAll.RevokedDomainStaysBlocked`).
- `policyrun.go:377-378` says that decisions without evidence must disappear. A run that decides
  nothing at all returns before it, at line 297, and leaves them all (`EvaluateAll.LastBlockStays`): the
  exact condition is `EvaluateAll.TableFollowsIff`.
- `opencti.go:225-236` deletes rows when an id is merged into itself, see
  `Replay.MergeLosesRowsIff`.
- `builder.go:272-289` means the write order, and so the original that every SameAs points at,
  to be stable. The comparator compares slug lengths first and calls two different slugs of one
  length equal (`WriteOrder.CmpIsAnOrderIff`), so it leaves a choice of order
  (`WriteOrder.WriteOrderDeterminedIff`) and of original (`Originals.TwoArrangements`). The
  originals are settled exactly under the condition of `Originals.OneManifestIff`, which content
  shared with the default tenant always meets. Everything else is proved for any rearrangement.
- `builder.go:315-318` says that two sets with different content never share a version name,
  even within a second. The name keeps eight digits of the digest
  (`SetDigests.SameSecondSameName`); the exact condition is `SetDigests.TakesPublishedNameIff`.
- A category called `all` or `allowlist`, or one enabled twice, gives two files one key. Such a
  build is published anew every time, see `BuildKeys.CategoryNamedAll` and
  `BuildKeys.BuildAgainSkippedIff`.
- `store.go:448-457` of the snapshot package accepts a rollback into a damaged or unfinished
  directory (`SnapshotHazards`); when readers are served then is `RollbackNames.RollbackServesIff`.
- The same lines clean the name to find the directory and write it down as it was given, and
  `store.go:472-475` compares what was written with the names of directories: under another
  spelling Prune does not know the version being served and may remove it
  (`RollbackNames.SlashThenPrune`). The exact conditions are `RollbackNames.RollbackThenPruneIff`
  and `RollbackNames.RollbackSafeIff`.
- `store.go:511-518` of the snapshot package reads the current file twice; what an answer that
  straddles a publish is worth is `SnapshotHazards.LookupAcrossResolvesIff`.

## Model

| member | source | states |
|---|---|---|
| Names.ReversedPrefixIsAncestor | internal/render/render.go:87-90 | A reversed name continues another reversed name past a dot exactly when the first name is a subdomain of the second, label by label; so the scan's prefix test can neither miss a subdomain nor swallow a sibling. |
| Names.ReverseLabelsInvolution | internal/render/render.go:102-106 | Reversing the labels twice gives the name back, so the sort key loses nothing. |
| RuleOrder.RuleOrderIsTotal | internal/render/render.go:67-75 | The sort comparator is a strict total order on rules: only equal rules compare equal. |
| Collapsing.Collapse | internal/render/render.go:61-99 | Clone, sort, then compaction inside the clone: returns a fresh array whose first n cells are the specified list, for every format, and leaves the caller's array alone. |
| Collapsing.DropCovered | internal/render/render.go:82-98 | The scan that appends into the array it is still reading gives what the scan over an immutable list gives, although every append overwrites a cell. |
| Collapsing.CollapsePreservesCoverage | internal/render/render.go:52-60 | A name lies at or below some output rule exactly when it lies at or below some input rule, and no rule is invented; no hypothesis. |
| Collapsing.CollapseIsCanonical | internal/render/render.go:57-58 | The output is a function of the set of input rules: order and repetition do not matter. |
| Collapsing.CollapseIdempotent | internal/render/render.go:52-60 | Collapsing a collapsed list changes nothing. |
| Minimality.CollapseMinimalIff | internal/render/render.go:57-58 | The promised minimality, exactly: the output is an antichain if and only if no input rule sorts between a topmost rule and one of its descendants by continuing its reversed name with a byte below the dot. |
| Minimality.MinimalWithoutHyphens | internal/render/render.go:67-98 | If no byte of any name sorts below the dot (for canonical names: no hyphen) the output is always minimal. |
| Minimality.HyphenWitness | internal/render/render.go:67-98 | A family of three-rule inputs, {a.com, a-b.com, x.a.com} among them, that the scan does not make minimal. |
| Rendering.Render | internal/render/render.go:122-144 | The body built line by line: one line per collapsed rule, the entry count, and the checksum of exactly those bytes; refused for an unsupported format. |
| Rendering.WriteTo | internal/render/render.go:173-212 | The text written is the header lines, empty fields left out, then the body bytes. |
| DomainNames.Validate | internal/domainname/domainname.go:118-144 | The label and character loops accept exactly the names of at most 253 bytes with two or more labels, each nonempty, at most 63 long and made of host characters. |
| DomainNames.ParseTokens | internal/domainname/domainname.go:238-253 | A hosts line is all or nothing: the rules of all its tokens, or the error of the first bad one. |
| DomainNames.ParsedNamesAreValid | internal/domainname/domainname.go:166-196 | Whatever the line was (plain, wildcard, hosts, Adblock), an accepted line yields at least one rule and every name in it is a valid host name without the asterisk. |
| DomainNames.ValidNameShape | internal/domainname/domainname.go:118-148 | A valid name starts and ends with a host character and contains no character that any feed syntax gives a meaning to. |
| DomainNames.CanonicalizeIdempotentIff | internal/domainname/domainname.go:86-109 | Given an IDNA conversion that fixes its own output: the result of an accepted name is its trimmed, mapped and lower-cased form, and canonicalizing again gives it back exactly when that form of the input does not read as an IP address. |
| DomainNames.LoweredNamesAreStable | internal/domainname/domainname.go:86-109 | So every accepted name on which IDNA does no more than lower-casing is accepted a second time and unchanged, provided reading an address ignores case. |
| DomainNames.MappedDigitsSlipThrough | internal/domainname/domainname.go:93-104 | The address test runs before IDNA mapping: a full-width digit address is accepted as a host name and its own ASCII line is then rejected. |
| DomainNames.PlainNameParses | internal/domainname/domainname.go:166-189 | A canonical name on its own line parses to one exact rule for it. |
| DomainNames.StarredNameParses | internal/domainname/domainname.go:256-278 | The same name behind an asterisk and a dot parses to one wildcard rule for it. |
| Feeds.PublicSuffixIn | internal/feed/parse.go:178-185 | The loop returns the first field that is a public suffix, in the spelling the caller sees. |
| Feeds.Parse | internal/feed/parse.go:107-172 | The scanning loop computes the specified outcome on every text and every sink: counters, reasons, samples, successful sink calls, and the error that stopped it. |
| FeedFacts.BooksBalance | internal/feed/parse.go:26-55 | On every input, even when parsing gives up half way: accepted is the number of successful sink calls, the reasons add up to rejected plus public suffixes, samples stop at twenty, and no public suffix or invalid name ever reached the sink. |
| FeedFacts.ParseSucceedsIff | internal/feed/parse.go:107-172 | Parse succeeds if and only if every line is readable (short enough, no NUL, no bare top-level domain) and the sink takes every rule on offer; then lines, skipped, rejected and publicSuffix are counts of lines or rules and the sink holds the harvest in order. When it fails the sink holds a prefix of the harvest. |
| BareSuffixes.GuardExactly | internal/feed/parse.go:120-147 | On every line that is readable and refused: the import stops if and only if the first raw field that reads as a public suffix has no dot once a leading marker is off; the line is counted as a suffix if and only if that field has a dot; otherwise it is an ordinary rejected line. |
| BareSuffixes.SpellingsDiffer | internal/feed/parse.go:130-146 | Seven spellings of one bare suffix t, all of which put forward the name t and are refused: t, *.t and the Adblock rule for t stop the import; t. and .t are only counted as suffixes; t#note and the Adblock rule with a modifier are plain rejected lines. |
| RoundTrips.LinesReadBack | internal/feed/parse.go:110-113 | Newline-free lines survive being written and scanned: the scanner gives back exactly the lines. |
| RoundTrips.PrintParseRoundTrip | internal/render/render.go:122-212 | Reading a published file as a feed gives exactly the collapsed names in order, all exact or all wildcard by format; accepted equals entries, skipped equals the header lines, nothing is rejected. |
| Matching.Matcher.Add | internal/match/match.go:35-44 | Adds the name to the one set its type selects and ignores the empty name. |
| Matching.Matcher.Match | internal/match/match.go:57-80 | The suffix walk answers exactly the label-wise question: the name is listed exactly, or a wildcard is listed whose labels are the last labels of the name. |
| Matching.WalkStep | internal/match/match.go:68-78 | Cutting at the first dot drops one label and changes the answer only by the name itself. |
| Matching.Load | internal/store/tenant.go:93-102 | Loading a list row by row gives the two sets of its names. |
| Policy.Score | internal/policy/policy.go:233-277 | The loop with its running maxima, source set and rule list equals the score defined on the set of active rows. |
| Policy.Evaluate | internal/policy/policy.go:166-221 | The precedence ladder: the first rung that applies decides, with its reason, and the score is reported on every rung. |
| Policy.DecisionDependsOnEvidenceSet | internal/policy/policy.go:166-277 | Order and repetition of the evidence rows do not change the decision. |
| Policy.BlockedExactlyWhen | internal/policy/policy.go:166-210 | When the default is not to block: the exact condition, over all lists and the score, under which a pair is blocked. |
| Policy.ScoreDecays | internal/policy/policy.go:286-292 | With fixed evidence and non-negative coefficients the score never rises as time passes. |
| Policy.BlockNeverReturns | internal/policy/policy.go:166-210 | An action that has left BLOCK through time alone never returns to it. |
| Policy.AddingEvidenceNeverLowers | internal/policy/policy.go:233-277 | Another active row never lowers the score. |
| Policy.EchoThroughOpenCTIAddsNothing | internal/policy/policy.go:233-284 | A row that came back through OpenCTI, no stronger and no newer than existing active evidence, changes neither the score nor the number of independent sources. |
| GroupBy.StreamingGroupsCorrectly | internal/store/policyrun.go:191-234 | Over sorted rows the one-pass scan emits exactly one decision per distinct pair, in key order, each made from all of that pair's rows and no others. |
| GroupBy.GroupingIgnoresOrderAndDuplicates | internal/store/policyrun.go:191-234 | Any two row lists with the same rows, in any order inside a group and with any repetitions, give the same decisions. |
| PolicyRun.EvaluateOne | internal/store/policyrun.go:260-290 | One pair: the three list lookups, the policy, and the conversion of score and count to 16 bits. |
| PolicyRun.EvaluateRows | internal/store/policyrun.go:176-238 | EvaluateAll's loop with its evidence buffer that is emptied and refilled in place equals the simple group-by, and its two counters are the number of decisions and of blocked ones. |
| PolicyRun.RunIgnoresRowOrder | internal/store/policyrun.go:176-238 | A policy run is a function of the set of evidence rows. |
| Decisions.DecisionStore.WriteDecisions | internal/store/policyrun.go:296-395 | One transaction: the log entries are made against the old table, the table becomes the staged decisions, and the result counts exactly the pairs whose action differs from before. |
| Decisions.TableIsStaging | internal/store/policyrun.go:352-380 | After a run that decided anything the table holds the staged pairs and nothing else. |
| Decisions.LoggedExactlyTheChanges | internal/store/policyrun.go:296-350 | The number of entries written is the number of pairs whose action is new. |
| Decisions.LogExplainsEveryDecision | internal/store/policyrun.go:296-395 | After any sequence of runs the action of every stored decision is the new action of the latest log entry of its pair. |
| Decisions.RerunLogsNothing | internal/store/policyrun.go:296-395 | Running again on equal input logs nothing. |
| EvaluateAll.EvaluateAll | internal/store/policyrun.go:176-250 | The whole run on any answer of the evidence query: the rows are grouped and decided, no pair twice, and written in one transaction; the three counters are the decisions, the blocked ones and the pairs with a new action. |
| EvaluateAll.DecidedPairs | internal/store/policyrun.go:148-160 | A run decides a pair exactly when some active source row asserts the category of an active domain. |
| EvaluateAll.DecidedFromTheTables | internal/store/policyrun.go:148-160 | And it decides the pair as the policy does from one piece of evidence for each such source, read off the tables, in any order. |
| EvaluateAll.TableFollowsIff | internal/store/policyrun.go:296-388 | After a run the decision table holds exactly the pairs decided if and only if there was a pair to decide or the table was empty before; a run that finds none leaves every old decision standing. |
| EvaluateAll.LastBlockStays | internal/store/policyrun.go:296-299 | With empty tables and one blocked pair stored, a run changes nothing: the block outlives its evidence. |
| EvaluateAll.AllowedAsRevokedIff | internal/policy/policy.go:192-196 | A pair is allowed as revoked if and only if no earlier rung speaks and a revoked, active OpenCTI row asserts that pair's own category. |
| EvaluateAll.RevocationReachesOwnCategories | internal/store/opencti.go:86-171 | After the event of a revoked indicator is applied, the pairs of its domains that are allowed as revoked are exactly those whose category the indicator itself asserts, where no earlier rung speaks and OpenCTI is one source. |
| EvaluateAll.OtherCategoriesKeepTheirDecision | internal/store/opencti.go:86-171 | For an active domain, a category the indicator asserts neither before nor after is decided as before the event, so what feeds had blocked there stays blocked. |
| EvaluateAll.RevokedDomainStaysBlocked | internal/policy/policy.go:192-196 | Concrete tables: one feed lists a domain as malware, the platform revokes an indicator that has it under phishing, and the run still blocks the malware pair. |
| Store.L1Store.Stage | internal/store/store.go:243-254 | The loop with its seen map stages the first record of every rule. |
| Store.L1Store.ApplyMerge | internal/store/store.go:289-435 | The six statements in order give the specified tables, and the three counters are the new domains, the source rows that existed, and the rows that ran out of grace. |
| Store.L1Store.UpsertOpenCTI | internal/store/opencti.go:57-186 | The guards in order (no id or rules, stale, confidence out of range), then one pass over the rules; a refused event changes nothing. |
| Store.L1Store.MergeOpenCTI | internal/store/opencti.go:215-254 | The cleanup and the renaming as two statements on the tables, and the number of rows renamed: those under an old id that the cleanup left. |
| TableRuns.ActivityOverRuns | internal/store/store.go:400-432 | After any sequence of imports and stream events from empty tables, an active source row implies an active domain; and right after an import a domain is active exactly when some source row is. |
| TableRuns.StepsOwnTheirRows | internal/store/store.go:314-340 | No step writes another source's rows, categories or evidence. |
| TableRuns.EvidenceNeverShrinks | internal/store/store.go:368-398 | Over every run the evidence table only grows. |
| Commute.ImportsCommute | internal/store/store.go:300-325 | From every consistent state two imports of different sources, with any lists and clocks, may run in either order: first_seen, last_seen, activity, source rows, categories and evidence come out the same. |
| Commute.ImportAndEventCommute | internal/store/opencti.go:57-186 | The same for an import and an OpenCTI event of different sources, whether the event is applied, stale or rejected. |
| Grace.GracePeriodOverRuns | internal/store/store.go:400-418 | After any run of imports of one source with a fixed grace period, in any company of other sources: the row for a rule exists exactly when it was ever listed, and it is active exactly when it was last listed no longer than the grace period before the source's last import. |
| Replay.RowsShowTheirNewestEvent | internal/store/opencti.go:76-171 | After any order and repetition of events of consistent indicators, every row shows the revocation, expiry, confidence, stamp and categories of its event with the greatest stamp. |
| Replay.ReplayConverges | internal/store/opencti.go:315-333 | Two runs that deliver the same set of events agree on all those columns. |
| Replay.DeletedStaysDeleted | internal/store/opencti.go:187-204 | After a deletion no replayed event that is not newer, and nothing any other source does, reactivates a row or brings its veto back. |
| Replay.MergeConservesRows | internal/store/opencti.go:206-254 | When the surviving id is not among the merged ones, merging keeps every row, its flags and its categories, and no row keeps an old id. |
| Replay.DeleteAfterMerge | internal/store/opencti.go:194-254 | Deleting the surviving id afterwards deactivates exactly the rows that carried it or any merged id. |
| Replay.MergeLosesRowsIff | internal/store/opencti.go:225-236 | A merge loses rows if and only if an id is merged into itself while rows carry it. |
| Consumer.Consumer.Handle | internal/syncconsumer/consumer.go:98-128 | Applies the event, records its id and time before looking at the error, and flushes only when the event did not fail. |
| Consumer.Consumer.HandleUpsert | internal/syncconsumer/consumer.go:130-171 | Which of applied, skipped, stale and failed an upsert event ends in, and what it does to the tables. |
| Consumer.Consumer.HandleMerge | internal/syncconsumer/consumer.go:201-224 | Remaps the merged ids first, then writes the surviving entity; a failure of the first leaves the tables alone. |
| Stream.CheckpointNeverSkips | internal/syncconsumer/consumer.go:98-128 | In every reachable state, with disconnects, reconnects, crashes and restarts anywhere, every event from the first position to the saved one was given to Handle and has an entry saying how it ended. |
| Stream.CountsAddUp | internal/syncconsumer/consumer.go:261-287 | Within one process, what was saved plus what is pending is the number of Handle calls. |
| Stream.BaseIsFixedByCheckpoint | internal/syncconsumer/runner.go:59-66 | Once a checkpoint exists it is never lost, and the first position the server ever chose is never moved. |
| Stream.UpsertEventEffect | internal/syncconsumer/consumer.go:130-171 | Handling an upsert of a writable record fails exactly when the database does not take upserts, and otherwise is one transaction. |
| Stream.AppliedExactlyWhatGotThrough | internal/syncconsumer/consumer.go:98-171 | For streams of upserts with consistent records: after any run a record is among the transactions if and only if some delivery of an event with that record met a database that takes upserts, read off the moves alone. |
| Stream.RowsShowWhatGotThrough | internal/syncconsumer/consumer.go:98-171 | For the same streams, from tables the source has not touched: it has a row for a rule if and only if a record naming the rule got through, and the row shows the newest such record. |
| Stream.EventIsInTheTablesIff | internal/syncconsumer/consumer.go:98-171 | For the same streams: the row of a rule shows a given event or something newer if and only if a delivery of it, or of a record for that rule that is not older, met a database that takes upserts. |
| Stream.CheckpointedEventsAreInTheTables | internal/syncconsumer/consumer.go:98-171 | End to end, for streams of upserts with consistent records: an event from the first position up to the checkpoint was given to Handle, and if the database took upserts during some delivery of it, it is in the tables, under its own row, showing this event or a newer one for the rule, whatever disconnects, crashes, redeliveries and other sources did. |
| Stream.FailedEventIsPassedOver | internal/syncconsumer/consumer.go:112-126 | The exception is real: a run in which the database fails on one event and the checkpoint moves past it with nothing of it in the tables. |
| Runner.Run | internal/syncconsumer/runner.go:32-95 | The reconnect loop with its start position, recover flag and flush stays inside the protocol's reachable states for every server whose answer in each session is one its rules allow, and the backoff stays positive and within its limits. |
| Runner.Resume | internal/syncconsumer/runner.go:50-66 | Flush first; then resume from the last id handled, if there is one, and stop recovering by time. |
| Token.AnswersAreRecent | internal/store/token.go:85-159 | Over every sequence of calls: each answer was the database's own answer to that token less than max(ttl, maxStale) ago, less than ttl ago when the database is reachable, and never from before the token's latest Invalidate. |
| Disks.Disk.WriteFileSync | internal/snapshot/store.go:362-384 | Writes a temporary file and renames it: issues a prefix of the three calls, all of them exactly when it succeeds. |
| SnapshotSets.SnapshotSet.Write | internal/snapshot/store.go:187-247 | Content already in the set costs no call and gives an entry pointing at the first copy; new content is written with its compressed copy and remembered; a failure leaves the set as it was. |
| SnapshotSets.SnapshotSet.AddTenant | internal/snapshot/store.go:170-184 | Refuses unsafe slugs and names without touching the disk; otherwise records the entry under slug and name. |
| SnapshotSets.SnapshotSet.Commit | internal/snapshot/store.go:300-347 | Refuses a second commit and a set without default lists; otherwise issues the manifest, the two directory moves and the current file in that order, stopping at the first failure. |
| SnapshotStores.Store.Begin | internal/snapshot/store.go:124-147 | Refuses empty names and names with separators; otherwise clears the leftovers of an earlier build and makes the directory. |
| SnapshotStores.Store.Versions | internal/snapshot/store.go:430-445 | Whatever order the directory is read in, the list is the version directories, newest first, without build directories. |
| SnapshotStores.Store.Rollback | internal/snapshot/store.go:448-457 | Cleans the name, tells a missing directory from one without a manifest, and otherwise only rewrites the current file, with the name as it was given. |
| SnapshotStores.Store.Prune | internal/snapshot/store.go:460-482 | Removes the specified versions one by one, stopping at the first failure, and reports the ones removed. |
| SnapshotStores.Store.Lookup | internal/snapshot/store.go:510-552 | Reads the set that the name in the current file leads to, however it is spelled; follows SameAs once, for the default tenant and for the others, and tells a missing current file, manifest and entry apart. |
| SnapshotSafety.SafeMeansReadable | internal/snapshot/store.go:510-552 | In a safe directory a lookup can only fail because nothing is published or the key is not in the set; otherwise it leads to a whole file whose checksum is the ETag, with its compressed copy. |
| SnapshotSafety.PointAlong | internal/snapshot/store.go:357-384 | Rewriting the current file is safe at every point and unseen by readers until its last call. |
| SnapshotRuns.PublishAlong | internal/snapshot/store.go:124-347 | Publishing, call by call: safe at every point, and the whole new set appears with the last call, whatever was published before. |
| SnapshotRuns.PublishSafeIff | internal/snapshot/store.go:331-344 | Publishing is safe at every point if and only if the version is not the published one, because Commit removes the target directory first. |
| SnapshotRuns.FinalFilesCompleteIff | internal/snapshot/store.go:187-268 | For safe and distinct keys the set that Commit installs is complete if and only if no file really written, the first of its content, takes the path of another one's compressed copy or of the manifest. |
| SnapshotRuns.ActionAlong | internal/snapshot/store.go:300-482 | Publish, rollback to an ordinary name, prune and abort all keep the directory safe at every point and change what readers see with their last call or not at all. |
| VersionDirs.PublishedDirs | internal/snapshot/store.go:124-347 | Wherever a publish stops, every version directory is one that was there, unchanged, or its own finished set. |
| SnapshotRuns.CrashSafety | internal/snapshot/store.go:300-482 | After every history of these operations, each cut off after any number of its calls, with rollbacks that name a version as it is listed, the current file is absent or names a complete set, and so is every version directory with a manifest. |
| SnapshotRuns.PublishedFilesAreTheOnesAdded | internal/snapshot/store.go:156-247 | For every key added, in any order and with any repetition of content, a lookup after Commit gives the key's own ETag and entry count and a file with exactly the bytes added under that key. |
| Dedup.BuiltInvariant | internal/snapshot/store.go:187-247 | After every sequence of additions: each remembered checksum leads to a written file with that checksum, every entry leads to the file remembered for its ETag, and the entries are exactly the keys added. |
| Dedup.ChainDepthOne | internal/snapshot/store.go:196-202 | A SameAs never points at another SameAs: its target is a file that some call wrote itself. |
| Dedup.RelPathInjective | internal/snapshot/store.go:192-195 | Two accepted keys with one path are the same key. |
| Pruning.PruneTargetsExactly | internal/snapshot/store.go:460-476 | Prune removes a version exactly when keep or more versions are newer and it is not the current one. |
| Pruning.PruneKeepsExactly | internal/snapshot/store.go:460-482 | Afterwards exactly the newest keep versions and the current one are left, untouched, and nothing but version directories was removed. |
| Pruning.PruneBoundsTheStore | internal/snapshot/store.go:460-482 | At most keep + 1 versions remain. |
| PartialRemovals.PartialRemovalsSpareReaders | internal/snapshot/store.go:331-334 | Even if every removal may stop half way, in any order of files, a publish shows readers a complete set at every point, the last one included: the old set until the last call and the new one after it. |
| PartialRemovals.CrashSafetyWithPartialRemovals | internal/snapshot/store.go:300-482 | After every history of publishing, pruning, cleaning up and rolling back to complete versions, each cut off after any number of calls and each removal after any number of files, the current file is absent or leads to a complete set. |
| RollbackNames.RollbackSafeIff | internal/snapshot/store.go:448-457 | In a safe directory a rollback that the code accepts, under any spelling of a name, is safe at every point if and only if the name is one that Versions lists and has no white space at its ends. |
| RollbackNames.RollbackServesIff | internal/snapshot/store.go:448-457 | Whatever earlier removals left: after a rollback that the code accepts readers are served a whole set if and only if the trimmed name leads to a version with every file its manifest names. |
| RollbackNames.ServedMeansReadable | internal/snapshot/store.go:510-552 | Readers who are served a whole set fail only on keys that are not in it and otherwise get a whole file with the ETag handed out. |
| RollbackNames.RollbackThenPruneIff | internal/snapshot/store.go:448-482 | After a rollback to a whole version under any spelling and then a prune, readers are still served if and only if the trimmed name is itself in the listing or fewer than keep versions are newer. |
| RollbackNames.SlashThenPrune | internal/snapshot/store.go:448-482 | An old version named with a slash at its end: the rollback is accepted and serves it, and the next prune removes the set being served. |
| RollbackNames.OrdinaryLookup | internal/snapshot/store.go:395-427 | Where the current file names an ordinary version, looking up through its spelling is looking up under that name. |
| Paths.OtherSpellings | internal/snapshot/store.go:448-452 | A cleaned path drops a slash after a plain name and a dot before it, so both spellings lead to the entry of that name. |
| SnapshotHazards.RollbackIntoDamagedVersion | internal/snapshot/store.go:448-457 | The manifest check is then too weak: a version that lost a listed file in an interrupted removal is still accepted by Rollback, and lookups lead to a missing file. |
| SnapshotHazards.RollbackIntoBuildDirectory | internal/snapshot/store.go:448-457 | Rollback also accepts the directory of a build that died after its manifest; the next Begin of that version deletes what is being served. |
| SnapshotHazards.LookupAcrossResolvesIff | internal/snapshot/store.go:511-551 | If current changes between the two reads of Lookup, its answer, an entry and a path of the first set under the name of the second, leads to a file with the ETag handed out if and only if some key of the second set, not necessarily the one looked up, leads to that path with that ETag. |
| SnapshotHazards.SameETagAcrossPublish | internal/snapshot/store.go:511-551 | Two sets that Commit made in which the key has the same ETag, and a lookup between them that pairs this ETag with a path holding other content. |
| Builders.ApplyOverrides | internal/builder/builder.go:207-220 | The shared rules whose own name the allowlist matches are dropped; the deny rules for every category and for this one are appended. |
| Builders.BuildTenant | internal/builder/builder.go:146-200 | One file per enabled category that has rules, then the union and the allowlist, in the tenant's own format where that is valid, with the entry count of the categories. |
| Coverage.RenderedCovers | internal/render/render.go:122-155 | Down to the text: the lines of a rendered file block a name exactly when the rules it was rendered from do. |
| Coverage.CategoryFileCovers | internal/builder/builder.go:165-181 | A category file blocks a name exactly when a shared rule outside the allowlist, or a deny rule for every category or for this one, sits at the name or above it. |
| Coverage.AllFileCovers | internal/builder/builder.go:183-188 | all.txt blocks a name exactly when one of the tenant's category files does. |
| Coverage.TenantGetsItsFiles | internal/builder/builder.go:164-198 | Both are about files the tenant gets: every enabled category that has rules, the union and the allowlist are among them. |
| Builders.Unchanged | internal/builder/builder.go:226-251 | On any manifest and any spelling of the current version: no without a readable one, otherwise by size and file against a table with the path of every entry and the ETag of an entry that has it, whatever order the two maps are read in. |
| Builders.AnswerIsExact | internal/builder/builder.go:226-251 | When every key of the manifest is safe, as in every safe directory, the answer does not depend on that order. |
| Rebuild.UnchangedIff | internal/builder/builder.go:239-250 | For distinct keys that comparison holds if and only if the published table of ETags is the table of the new checksums. |
| Rebuild.ManifestShowsTheFiles | internal/builder/builder.go:230-237 | The manifest of a finished set shows under every key the checksum of the file added there, and nothing else. |
| Rebuild.RebuildSkippedIff | internal/builder/builder.go:118-125 | Publishing a list of files and comparing it again says unchanged if and only if no two of its files have one key, whatever was on the disk and whatever order they were written in. |
| BuildKeys.BuildIsAddableIff | internal/builder/builder.go:63-68 | The files of a build are acceptable to the snapshot store, each under a key and path of its own, if and only if slugs and category names are safe, no two tenants share a slug, and no tenant enables a category twice or one called all or allowlist. |
| BuildKeys.BuildAgainSkippedIff | internal/builder/builder.go:118-125 | With safe names and a default tenant: what a build published compares as unchanged with a build of the same data if and only if the data has those distinct slugs and categories. |
| BuildKeys.CategoryNamedAll | internal/builder/builder.go:165-189 | One tenant with the one category all already breaks the condition. |
| SetDigests.SetDigest | internal/builder/builder.go:315-338 | The gathering loop, the sort and the hashing loop give the digest of the sorted keys with their checksums. |
| SetDigests.TableDigestInjective | internal/builder/builder.go:330-338 | Two tables of checksums with one digest are one table: the NUL after every key and checksum leaves no second reading. |
| SetDigests.NewVersionIff | internal/snapshot/store.go:484-491 | Two version names are equal exactly when the seconds and the first eight digits of the digests are. |
| SetDigests.SameSecondSameName | internal/builder/builder.go:315-338 | Any two builds of different tables whose digests are spelled with the same first eight digits get one version name within a second. |
| SetDigests.TakesPublishedNameIff | internal/builder/builder.go:127-131 | A build with something new has another digest than what is published; it gets the published version's name if and only if it is made within the same second and the two digests share their first eight digits. |
| BuildRuns.BuildIsAdmissible | internal/builder/builder.go:127-131 | Save for that collision, what a build commits is admissible in the directory it finds: a new ordinary name and files that stay apart. |
| BuildRuns.BuildSparesServed | internal/builder/builder.go:127-142 | In such a directory, so also after a rollback, a build that stops anywhere leaves readers what they saw before or its own whole set. |
| BuildRuns.HistoriesStayFit | internal/builder/builder.go:72-142 | After any history of builds of any data, rollbacks to listed versions, prunes and clean-ups, each cut off after any number of calls, the directory is safe and every version in it is named after its own content. |
| BuildRuns.SecondBuildIsSkipped | internal/builder/builder.go:118-125 | Build, then Build again with the same data at any later time: after a first success the second answers that it was skipped and issues no call. |
| WriteOrder.CmpIsAnOrderIff | internal/builder/builder.go:274-289 | On files in which every tenant has two names, as every build's have, the comparator is a strict weak order if and only if no two different slugs have the same length. |
| WriteOrder.TiesAreNotTransitive | internal/builder/builder.go:274-289 | Two slugs of one length: each of one tenant's two files ties with the other tenant's file, and the two do not tie. |
| WriteOrder.BuildHasTwoNames | internal/builder/builder.go:186-198 | Every tenant of a build has two names. |
| WriteOrder.WriteOrderDeterminedIff | internal/builder/builder.go:272-289 | With one file per key, all arrangements that the comparator finds in order are one list if and only if no two different slugs have the same length. |
| Originals.OneFirstHolderIff | internal/builder/builder.go:272-289 | The file that is written for a content is the same in every such arrangement if and only if no two files with the content have different slugs of one length, unless another one has a shorter slug. |
| Originals.DefaultContentIsSettled | internal/builder/builder.go:277-279 | Content that the default tenant has too always meets that condition, whatever the other slugs are. |
| Originals.EntryOfFile | internal/snapshot/store.go:187-247 | The entry of every file in closed form: its own checksum and count, and no SameAs for the first file added with the content, else the path of that one. |
| Originals.OneManifestIff | internal/builder/builder.go:272-289 | Every entry of the manifest, SameAs included, is the same in every such arrangement if and only if every content meets that condition. |
| Originals.TwoArrangements | internal/builder/builder.go:274-289 | Two tenants of one slug length with one content: both orders pass the comparator, and in either the other tenant's file is the original. |
| WriteOrder.DefaultTenantFirst | internal/builder/builder.go:277-279 | Whatever the other slugs are, in any such arrangement no file precedes the default tenant's. |
| Rebuild.NothingPublishedWithoutDefault | internal/snapshot/store.go:304-306 | Without a file of the default tenant nothing is ever published, wherever the run stops. |
| Publishing.Publish | internal/builder/builder.go:253-313 | Begin, additions, Commit; the calls issued are a prefix of that plan, all of it on success, followed by part of the pruning, or after a failure by at most the removal of the build directory. |
| Publishing.Build | internal/builder/builder.go:72-142 | The order of the refusals (no policy run, no tenant, bad format); data equal to what is published touches nothing; otherwise the version is made of the time and the digest of the files, and a publish of that version ran, to its end on success. The counts reported are those of the inputs and of the default tenant. |
| Publishing.PublishIsAHistory | internal/builder/builder.go:253-313 | Wherever the code of publish stops, the disk is in a state that a history of the protocol reaches, so crash safety holds of the code. |

## Left out

- HTTP servers and clients, metrics, logging, configuration, the admin interface, audit and the trigger queue: plumbing without unbounded properties.
- SQL execution, locking, COPY and ANALYZE: each transaction is one step; `updated_at` columns, which record only when a row was written, are not modelled.
- `raw_hash` of a domain: it is in the tables but outside the commutativity claims, because the first writer wins it.
- SSE framing and STIX decoding: the stream starts from decoded events.
- Reader errors in `feed.Parse`, and the ratio guards of `feed.Validate` with their floating-point thresholds.
- Invalid UTF-8: text is a sequence of characters; the scanner's limit counts their UTF-8 bytes, and every other length limit applies to names that turn out to be ASCII.
- File sizes in the manifest, the gzip encoding itself, directory creation inside a set, and JSON encoding: a manifest file holds the manifest value.
- A default-tenant file called `t`, which would collide with the tenant directory: a plain I/O failure of the code, not expressible in a flat set of paths.
- Two store processes at once on one root: operations run one after the other; only the two reads of Lookup are taken apart.
- Publishing under version names that are not of the form NewVersion makes (`current`, `.`, a `.building-` prefix, white space at the ends): the histories use ordinary names. How a time is spelled is only that it is twenty digits, dashes and letters T and Z and starts with a digit.
- Opening a store and creating its root directory; symbolic links; directories that hold no file.
- Waiting and jitter in the reconnect loop; only the backoff value is kept.
- Rounding of days in the staleness penalty: whole days are an integer division of nanoseconds.
- Hash collisions of the token cache and of content checksums: digests are injective.
- SnapshotRuns.CrashSafety: takes a removal of a directory tree as one call; what survives without that is PartialRemovals.CrashSafetyWithPartialRemovals.
- Feeds.Parse: starts from a sink that has taken nothing yet, as every import does.
- Rendering.WriteTo: gives the text that a writer without failures receives; write errors and the returned byte count are not modelled, because every caller throws the file away on an error.
- SnapshotStores.Store.Lookup: the check that a path stays inside the set is not modelled, because no manifest that Commit writes can fail it; a name in the current file that leads out of the root, or below a version directory, is read as one without a manifest.
- Stream.CheckpointedEventsAreInTheTables: is about streams of upserts with consistent records, because a later deletion or merge may rightly change what a row shows; which rows those change is in Replay.
- EvaluateAll.RevocationReachesOwnCategories: takes the OpenCTI source to be the only one of that origin, as the deployment has it; with more of them AllowedAsRevokedIff is the exact condition.
- RoundTrips.PrintParseRoundTrip: header values must be free of newlines and NUL and fit the scanner's line limit, as those that the builder writes do.
