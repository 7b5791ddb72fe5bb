# Verified models of the agent gateway's algorithmic cores

This Dafny project models the parts of the agent gateway whose correctness spans loops, functions or
whole runs, and proves what they promise.  `dafny verify dfyconfig.toml` checks it.

Code that changes things step by step is modelled by classes and methods with loops, each proved
against a pure function; the properties of whole runs are lemmas about those functions.  Calls into
foreign code are parameters, with their assumptions stated as predicates.

| module | models |
|---|---|
| `RateLimit`, `Evictions` | the per-address rate limiter with lockout and eviction |
| `Utf8`, `Search`, `Chunking` | chunking of memory texts, on UTF-8 bytes |
| `SplitMessage` | splitting chat messages, on characters with byte lengths |
| `Breaks` | where chunks and messages are cut by preference |
| `Lines`, `Decimals`, `PatchParser`, `PatchSpellings`, `ApplyPatch`, `HunkTolerance`, `PatchReversal` | the unified-diff parser, the hunk applier and the undoing of patches |
| `Ranking`, `Scoring`, `Similarity` | sorting, rank fusion, cosine similarity and nearest neighbours |
| `MemoryTypes`, `Storage`, `Lifecycle`, `NearDuplicates`, `Retrieval`, `Writer` | the memory engine, each operation run alone |
| `Relevance`, `Arms`, `Closeness`, `LifecycleRules`, `StorageLaws` | what decides a recall, a link, a stage and a row, in the columns of the rows |
| `Runs`, `Engine` | the memory engine with all operations interleaved at every storage call |
| `Json`, `Messages`, `ToolExecution`, `AgentRunner`, `AgentEvents`, `AgentEndings` | the agent loop, its streaming twin and its events, retries, parallel tool calls, fencing |
| `Framing`, `SseStream`, `Payloads`, `OllamaStream`, `Replies` | the incremental stream parsers against the one-shot parsers |
| `Mcp` | JSON-RPC request and response matching under concurrency |
| `Timestamps`, `TimestampReading`, `CreationTimes`, `Jobs` | RFC 3339 text as an index order, and the time-range query and job store that rely on it |

Conventions.  Floats are reals; `exp` and `sqrt` are function parameters, `sqrt` assumed only to be
the non-negative root and `exp` only to be positive, strictly increasing and 1 at 0
(`Relevance.GrowthIsExp` gives such a function).  The clock is a parameter, and non-decreasing where a lemma says so.
Identifiers are numbers, new ones are parameters or choices required to be new.  A hash map iterates,
and a query without ORDER BY returns its rows, in an arbitrary order.  Every induction is spelled
out: Dafny's automatic induction is switched off in all lemmas.

Where the promise fails, the model keeps the code's behaviour and states exactly when it holds:

- The rate limit bound needs a lockout at least as long as the window (`BoundedExactlyWhen`).
- A token budget of 0 loses text (`CoversExactlyWhen`); a message limit below 4 bytes cannot be kept
  (`FitsExactlyWhen`); a message has an empty chunk when it is empty, or too long and blank as far as
  its first split point (`EmptyChunkExactlyWhen`).
- A hunk that only inserts, below the top of the file, goes in one line early (`ApplyExactlyWhen`,
  `InsertionGoesInEarly`), and so does the reverse of one that only deletes (`ReverseExactlyWhen`).
  The "Diff -u or -U Output Format" of the POSIX.1-2017 `diff` utility has it start after that line.
- A removed line that starts with two dashes and a space reads as a file header
  (`RoundTripExactlyWhen`, `RemovedCommentIsLost`); an empty hunk list changes CRLF line ends
  (`IdentityExactlyWhen`, `CrLfIsChanged`).
- A batch of stage updates overwrites a tombstone exactly when its last entry for the memory is
  another stage (`TombstoneLostExactlyWhen`, `TombstoneLostInRunExactlyWhen`, `TombstoneIsLost`), so
  the guarantees of recall rest on the validity flag.
- The pending map keeps the entry of a request whose send failed or that was cancelled after it
  registered (`LeaksExactlyWhen`).
- The comment on a sweep has memories move when they have been idle for longer than the configured
  times; the code moves them from exactly these times on, and counts the 30 days before a demotion in
  whole hours, so that it takes 721 of them (`SweepLands`, `EpisodicFalls`).
- The fencing comment speaks of 80 characters; the code counts bytes
  (`FencedByCharactersExactlyWhen`).
- A job is marked only when its run has ended, so one that is still running at the next check is
  started again (`OneShotRunsAgainExactlyWhen`, `RecurringRunsAgainExactlyWhen`).
- The NDJSON loop drops a last line without its line feed (`DroppedTailExactlyWhen`).

## Model

| member | source | states |
|---|---|---|
| `RateLimit.RateLimiter.Check` | crates/rustykrab-gateway/src/rate_limit.rs:55-115 | One request, for every map order: the new records and the answer are those of the step function about which all run properties are proved |
| `RateLimit.RateLimiter.EvictStale` | crates/rustykrab-gateway/src/rate_limit.rs:87-112 | Evicts exactly the chosen stale victims, at most 256 of the first 512 records scanned, and only in a map of more than 1000 |
| `Evictions.EvictsExactly` | crates/rustykrab-gateway/src/rate_limit.rs:87-112 | A map of at most 1000 records loses nothing; a larger one loses idle records among the first 512 of its order, all of them or 256 different ones, where idle means not locked out any more and without an attempt for two windows |
| `Evictions.CheckKeepsTheRest` | crates/rustykrab-gateway/src/rate_limit.rs:55-115 | A request leaves the record of every other address that is not idle as it was |
| `RateLimit.EvictionUnobservable` | crates/rustykrab-gateway/src/rate_limit.rs:87-112 | In any run with a non-decreasing clock, the answers to one address are those of a limiter that sees only that address and never evicts |
| `RateLimit.DecisionsDependOnOwnHistory` | crates/rustykrab-gateway/src/rate_limit.rs:59-85 | Two runs that give one address the same request times give it the same answers, whatever the other traffic and evictions |
| `RateLimit.RefinesFullHistory` | crates/rustykrab-gateway/src/rate_limit.rs:59-85 | With lockout at least the window, the limiter answers as one that keeps every admission for ever |
| `RateLimit.WindowBound` | crates/rustykrab-gateway/src/rate_limit.rs:55-115 | At most `max_requests` admissions of an address in any interval of one window, across lockout resets and evictions, in every run |
| `RateLimit.ShortLockoutBreaksBound` | crates/rustykrab-gateway/src/rate_limit.rs:65-85 | With a lockout shorter than the window a concrete burst is admitted twice within one window |
| `RateLimit.BoundedExactlyWhen` | crates/rustykrab-gateway/src/rate_limit.rs:55-115 | The window bound holds for all runs if and only if the lockout is at least the window, or nothing is ever admitted |
| `Chunking.ChunkText` | crates/rustykrab-memory/src/chunking.rs:27-64 | The cut loop equals the recursive span specification, and every chunk of a positive budget fits it |
| `Chunking.ChunkTextPromise` | crates/rustykrab-memory/src/chunking.rs:27-64 | For a positive budget: char-aligned spans cover the content without a gap, overlap by the clamped overlap or up to a character less, end strictly later each, are linear in number, and each has at most `max_tokens` estimated tokens |
| `Chunking.OverlapIsShare` | crates/rustykrab-memory/src/chunking.rs:33 | The overlap is the budget times the ratio kept between 0 and 0.5, rounded down |
| `Chunking.SnappedSpanFits` | crates/rustykrab-memory/src/chunking.rs:13-24 | Forward snapping takes up to 3 bytes more but never a character more than the budget |
| `Chunking.BreakPointInLastQuarter` | crates/rustykrab-memory/src/chunking.rs:68-99 | A break point lies behind three quarters of the span, at most at its end, and on a character boundary |
| `Breaks.ChunksPreferSentences` | crates/rustykrab-memory/src/chunking.rs:68-99 | In the last quarter of the budget a chunk ends behind the last full stop, else exclamation mark, else question mark (each with a space), else line feed, else space, else at the budget |
| `Chunking.TilesAreFew` | crates/rustykrab-memory/src/chunking.rs:40-62 | Each chunk but the last moves the start by more than a quarter of the budget |
| `Chunking.CoversExactlyWhen` | crates/rustykrab-memory/src/chunking.rs:27-64 | The chunks cover the text if and only if the budget is positive or the text empty |
| `Chunking.ChunkByTurns` | crates/rustykrab-memory/src/chunking.rs:103-143 | Long turns are cut, short ones kept, in order; all chunks fit a positive budget |
| `Chunking.TurnsKeepText` | crates/rustykrab-memory/src/chunking.rs:104-130 | Joining the turns gives the joined lines back |
| `Chunking.AddLine` | crates/rustykrab-memory/src/chunking.rs:107-127 | A line opens a turn exactly when it looks like "Name: "; otherwise it continues the current turn behind a line feed; leading blank lines are dropped |
| `Breaks.OpensTurnExactlyWhen` | crates/rustykrab-memory/src/chunking.rs:107-127 | A line opens a turn if and only if what stands before its first colon with a space is a name |
| `SplitMessage.SplitText` | crates/rustykrab-channels/src/telegram.rs:508-540 | Equals the recursive split; nothing but whitespace is lost; every chunk fits for limits of 4 bytes and more; no empty chunk when the text does not start with whitespace |
| `SplitMessage.WovenSplit` | crates/rustykrab-channels/src/telegram.rs:508-577 | The text is the chunks in order with only whitespace dropped between them and at the ends, for every limit |
| `Breaks.MessagesPreferParagraphs` | crates/rustykrab-channels/src/telegram.rs:544-577 | A message is cut behind the last blank line of what fits, else the last line feed, else the last full stop, exclamation mark, question mark (each with a space), else the last space, else at the limit; a separator at the very start does not count |
| `Breaks.WindowIsFull` | crates/rustykrab-channels/src/telegram.rs:516-530 | What it is cut from is as much of the message as the limit allows |
| `SplitMessage.FitsExactlyWhen` | crates/rustykrab-channels/src/telegram.rs:516-530 | The limit holds for every message if and only if it is at least 4 bytes |
| `SplitMessage.NoEmptyChunk` | crates/rustykrab-channels/src/telegram.rs:508-540 | No chunk is empty when the text is not and does not start with whitespace |
| `SplitMessage.OnlyFirstChunkCanBeEmpty` | crates/rustykrab-channels/src/telegram.rs:508-540 | In any message only the first chunk can be empty |
| `SplitMessage.EmptyChunkExactlyWhen` | crates/rustykrab-channels/src/telegram.rs:508-577 | There is an empty chunk if and only if the message is empty, or too long and blank as far as its first split point |
| `SplitMessage.BlankStartLeavesEmptyChunk` | crates/rustykrab-channels/src/telegram.rs:544-577 | Such a message: three line feeds and two letters at a limit of 4 |
| `ApplyPatch.ApplyHunks` | crates/rustykrab-tools/src/apply_patch.rs:144-204 | The loops over hunks and lines compute the recursive application of the hunks to the cut lines |
| `ApplyPatch.ApplyExactlyWhen` | crates/rustykrab-tools/src/apply_patch.rs:144-204 | For every edit script in hunks with correct counts the new lines come out if and only if, touching hunks taken as one, each hunk that only inserts stands at the top or repeats the line before it |
| `ApplyPatch.MergedKeepsResult` | crates/rustykrab-tools/src/apply_patch.rs:150-196 | A hunk that only inserts, directly behind another, acts as part of it |
| `ApplyPatch.ApplyScript` | crates/rustykrab-tools/src/apply_patch.rs:144-204 | Scripts whose hunks all name an old line, except at the top, yield exactly their new lines |
| `ApplyPatch.ApplyEmits` | crates/rustykrab-tools/src/apply_patch.rs:150-165 | What is computed for every separated script, early insertions included |
| `ApplyPatch.InsertionGoesInEarly` | crates/rustykrab-tools/src/apply_patch.rs:144-204 | Such a script: inserting one line behind a one-line file puts it in front |
| `PatchReversal.ReverseExactlyWhen` | crates/rustykrab-tools/src/apply_patch.rs:144-204 | For every edit script, whatever the applier made of it, the reversed hunks restore the old lines if and only if, touching hunks taken as one, each hunk below the top that only inserts begins with a copy of the line before it, and each such hunk of the reversed script consists of copies of it |
| `PatchReversal.ReverseRestores` | crates/rustykrab-tools/src/apply_patch.rs:144-204 | Without hunks that only insert or only delete below the top, the reversed hunks restore the old lines |
| `PatchReversal.RightAndUndoneDiffer` | crates/rustykrab-tools/src/apply_patch.rs:144-204 | A script that is undone although the applier makes wrong lines of it, and one that yields the right lines and is not undone: what comes out each way, and the conditions of both theorems |
| `ApplyPatch.SurplusContext` | crates/rustykrab-tools/src/apply_patch.rs:166-196 | Context lines too many at the end of the last hunk change nothing |
| `HunkTolerance.OneHunkExactly` | crates/rustykrab-tools/src/apply_patch.rs:150-196 | A hunk inside any file, made for it or not: everything outside its range stays, its context is what stands in the file, and old lines that it counts without naming are lost |
| `ApplyPatch.IdentityExactlyWhen` | crates/rustykrab-tools/src/apply_patch.rs:144-204 | An empty hunk list is the identity if and only if the text has no CRLF |
| `ApplyPatch.CrLfIsChanged` | crates/rustykrab-tools/src/apply_patch.rs:144-204 | Such a text: one line with a CRLF |
| `ApplyPatch.PatchedTextExactlyWhen` | crates/rustykrab-tools/src/apply_patch.rs:197-204 | The patched text reads back as the new lines exactly when its last line can be seen |
| `PatchParser.ParseUnifiedDiff` | crates/rustykrab-tools/src/apply_patch.rs:42-116 | The parser that walks an index computes the grammar of files, hunks and lines |
| `PatchParser.HeaderRoundTrip` | crates/rustykrab-tools/src/apply_patch.rs:120-142 | A printed hunk header gives back start and count |
| `PatchSpellings.ReadsExactlyWhen` | crates/rustykrab-tools/src/apply_patch.rs:73-93 | A line of a hunk reads as an added, removed or context line if and only if it spells it: behind its mark or, for context, without one when nothing in it says otherwise |
| `PatchSpellings.SkippedExactlyWhen` | crates/rustykrab-tools/src/apply_patch.rs:73-93 | Only the note on a missing line feed at the end of a file is passed over |
| `PatchSpellings.EverySpellingReads` | crates/rustykrab-tools/src/apply_patch.rs:42-142 | A text that spells some files is parsed to them, whatever liberties it takes: context lines without their space, ranges of one line without their count, notes on missing line feeds, paths without their prefix, words behind the ranges, lines before the first file or hunk |
| `PatchSpellings.BlankLineStays` | crates/rustykrab-tools/src/apply_patch.rs:88-91 | A blank line in a hunk, without its space, is context and stays in the file |
| `PatchParser.FilesRoundTrip` | crates/rustykrab-tools/src/apply_patch.rs:42-116 | Printed well-formed diffs parse to the same paths, starts, counts and tagged lines |
| `PatchParser.FilesAlwaysClear` | crates/rustykrab-tools/src/apply_patch.rs:42-116 | No parse result ever removes a line that starts with two dashes and a space |
| `PatchParser.RoundTripExactlyWhen` | crates/rustykrab-tools/src/apply_patch.rs:42-142 | Print then parse is the identity on well-formed diffs if and only if no removed line starts with two dashes and a space |
| `PatchParser.RemovedCommentIsLost` | crates/rustykrab-tools/src/apply_patch.rs:42-142 | Such a diff: it removes the line `-- x` |
| `Ranking.SortDescSorts` | crates/rustykrab-memory/src/scoring.rs:182-183 | The descending sort returns the same elements in descending order |
| `Ranking.SortDescIsStable` | crates/rustykrab-memory/src/scoring.rs:182-183 | Elements that compare equal keep their order |
| `Scoring.RrfFuse` | crates/rustykrab-memory/src/scoring.rs:172-184 | Every listed identifier once, with its reciprocal rank score, in descending order, for any hash map order |
| `Scoring.RrfFuseWithSources` | crates/rustykrab-memory/src/scoring.rs:187-210 | Erasing the sources gives a fusion of the same lists; the sources are one tag per occurrence, in order |
| `Arms.SourcesNameTheArms` | crates/rustykrab-memory/src/scoring.rs:187-210 | A candidate of a search carries the source of an arm if and only if that arm lists it |
| `Scoring.FusionsAgree` | crates/rustykrab-memory/src/scoring.rs:172-210 | Two fusions of the same lists have the same rows and the same sequence of scores: only ties can be exchanged |
| `Scoring.TotalIsConserved` | crates/rustykrab-memory/src/scoring.rs:175-179 | The scores add up to w/(k+rank) over all entries of all lists |
| `Scoring.ScoreIsBounded` | crates/rustykrab-memory/src/scoring.rs:175-179 | With distinct identifiers per list, non-negative weights and positive k, no score exceeds the sum of the weights over k |
| `Scoring.ClampNeverFires` | crates/rustykrab-memory/src/retrieval.rs:122-133 | So the clamp at 1 never changes a score: normalising and multiplying back gives the score |
| `Similarity.CosineSimilarity` | crates/rustykrab-memory/src/embedding.rs:23-49 | The loop computes the cosine over the reals, 0 for unequal lengths or vanishing norms |
| `Similarity.CauchySchwarz` | crates/rustykrab-memory/src/embedding.rs:33-41 | The square of the dot product is at most the product of the squared norms |
| `Similarity.CosineInUnit` | crates/rustykrab-memory/src/embedding.rs:42-49 | Similarities lie in [-1, 1] |
| `Similarity.CosineCommutes` | crates/rustykrab-memory/src/embedding.rs:23-49 | Similarity does not depend on the order of the arguments |
| `Closeness.CosineOfSelf` | crates/rustykrab-memory/src/embedding.rs:23-49 | A vector is as similar as can be to itself |
| `Closeness.CosineOfOpposite` | crates/rustykrab-memory/src/embedding.rs:23-49 | And as dissimilar as can be to its opposite |
| `Closeness.LargerProductIsCloser` | crates/rustykrab-memory/src/embedding.rs:33-49 | Of two vectors of one length, the one with the larger product with the query is the more similar |
| `Similarity.TopKIsBest` | crates/rustykrab-memory/src/embedding.rs:53-68 | The k nearest in descending order, and nothing left out is nearer than anything returned |
| `Storage.SqliteMemoryStorage.UpsertMemory` | crates/rustykrab-memory/src/storage.rs:522-605 | Inserts, or updates without touching agent, content, hash and creation time |
| `Storage.SqliteMemoryStorage.RecordAccess` | crates/rustykrab-memory/src/storage.rs:798-813 | One access more and a new access time on an existing row; nothing else |
| `StorageLaws.RecallCountsEachOnce` | crates/rustykrab-memory/src/retrieval.rs:157-164 | After a recall every returned row has one access more, with the time of its own access, and no other column or row has changed |
| `Storage.SqliteMemoryStorage.Invalidate` | crates/rustykrab-memory/src/storage.rs:815-833 | Clears validity, tombstones, and records successor and time; nothing else |
| `StorageLaws.InvalidationHides` | crates/rustykrab-memory/src/storage.rs:815-833 | An invalidated memory is found for no agent, names its successor and keeps what it said; no other row changes |
| `StorageLaws.UpsertKeepsIdentity` | crates/rustykrab-memory/src/storage.rs:522-605 | Writing a row again keeps whose it is, what it says and when it was made, takes over every other column, and touches no other row |
| `Storage.SqliteMemoryStorage.BatchUpdateStages` | crates/rustykrab-memory/src/storage.rs:1124-1147 | Writes every stage in order regardless of validity and old stage, and counts the rows affected |
| `Storage.SqliteMemoryStorage.StoreChunks` | crates/rustykrab-memory/src/storage.rs:837-869 | All rows, or none when one refers to a missing memory |
| `Storage.SqliteMemoryStorage.FtsIndex` | crates/rustykrab-memory/src/storage.rs:453-472 | Exactly one index row per memory, the latest |
| `Storage.SqliteMemoryStorage.FtsSearch` | crates/rustykrab-memory/src/storage.rs:474-520 | The best-ranked distinct matching rows of the agent, all of them when there are fewer than the limit |
| `Storage.SqliteMemoryStorage.FindByContentHash` | crates/rustykrab-memory/src/storage.rs:648-673 | A valid memory of the agent with the hash, if and only if there is one |
| `Storage.SqliteMemoryStorage.GetMemories` | crates/rustykrab-memory/src/storage.rs:625-646 | Exactly the rows asked for that exist, each once |
| `Storage.SqliteMemoryStorage.ListByStage` | crates/rustykrab-memory/src/storage.rs:675-695 | Exactly the valid rows of the agent in the stage, each once |
| `Storage.SqliteMemoryStorage.ListBySessionAndStage` | crates/rustykrab-memory/src/storage.rs:697-724 | Exactly the valid rows of agent, stage and session, each once |
| `Storage.SqliteMemoryStorage.ListRetrievable` | crates/rustykrab-memory/src/storage.rs:726-746 | Exactly the valid rows of the agent in a retrievable stage, each once |
| `Storage.SqliteMemoryStorage.ListByTimeRange` | crates/rustykrab-memory/src/storage.rs:748-782 | The newest live rows of the range, newest first, up to the limit |
| `CreationTimes.RecentIsRecentByText` | crates/rustykrab-memory/src/storage.rs:748-784 | For years of four digits, comparing the stored RFC 3339 texts selects, orders and cuts off exactly as comparing the instants |
| `Storage.SqliteMemoryStorage.GetChunksForMemory` | crates/rustykrab-memory/src/storage.rs:871-910 | Exactly the rows of the memory, in order of index |
| `Storage.SqliteMemoryStorage.GetAllChunkEmbeddings` | crates/rustykrab-memory/src/storage.rs:912-945 | Exactly the non-empty chunks of live memories of the agent |
| `Storage.SqliteMemoryStorage.GetLinksFrom` | crates/rustykrab-memory/src/storage.rs:1055-1085 | Exactly the links out of one memory |
| `Storage.SqliteMemoryStorage.UpsertLink` | crates/rustykrab-memory/src/storage.rs:1032-1053 | One link per source, target and kind, the latest weight |
| `Lifecycle.LifecycleManager.Sweep` | crates/rustykrab-memory/src/lifecycle.rs:53-152 | Run alone, a sweep is the per-memory rule on every valid memory of the agent, and its counters are the sizes of the four moves |
| `Lifecycle.LifecycleManager.SweepEpisodic` | crates/rustykrab-memory/src/lifecycle.rs:79-120 | Promotion and demotion from one reading, promotion first |
| `LifecycleRules.SweepLands` | crates/rustykrab-memory/src/lifecycle.rs:53-152 | Which memory lands in which stage, in the columns of its row: idle minutes, age and access count, decayed importance and 721 idle hours, idle days and importance; no other row or column changes |
| `LifecycleRules.EpisodicFalls` | crates/rustykrab-memory/src/lifecycle.rs:99-112 | What is not promoted is demoted when its decayed importance is below the threshold and its last use at least 721 hours ago, and becomes a tombstone at once when it is also unimportant and idle enough for that |
| `LifecycleRules.RetiringIsMonotone` | crates/rustykrab-memory/src/lifecycle.rs:126-136 | If a sweep tombstones an archival memory, it tombstones every one that is no more important and was not used later |
| `LifecycleRules.IdlingIsMonotone` | crates/rustykrab-memory/src/lifecycle.rs:63-70 | If it takes a memory out of the working stage, it takes every one that was not used later |
| `LifecycleRules.PromotionIsMonotone` | crates/rustykrab-memory/src/lifecycle.rs:88-97 | If it promotes an episodic memory, it promotes every one that is as old and as often accessed |
| `LifecycleRules.DemotionIsMonotone` | crates/rustykrab-memory/src/lifecycle.rs:99-112 | If it demotes an episodic memory, it demotes every unpromoted one that decays as fast, is no more important and was not used later |
| `LifecycleRules.SweepHidesExactlyWhen` | crates/rustykrab-memory/src/lifecycle.rs:53-152 | A sweep hides a memory from recall if and only if it moves it to the archive or the tombstones; semantic memories stay |
| `Lifecycle.LifecycleManager.FinalizeSession` | crates/rustykrab-memory/src/lifecycle.rs:159-187 | Exactly the valid working memories of the session become episodic, and are counted |
| `Lifecycle.PassesAreTheRule` | crates/rustykrab-memory/src/lifecycle.rs:53-152 | The three passes over successive database states compose to one per-memory rule |
| `Lifecycle.SweepIsAFixpoint` | crates/rustykrab-memory/src/lifecycle.rs:53-152 | A second sweep at the same instant changes nothing |
| `Lifecycle.SweepFollowsTheCycle` | crates/rustykrab-memory/src/lifecycle.rs:53-152 | A memory moves only along Working, Episodic, then Semantic or Archival, then Tombstone, by at most three steps in one sweep |
| `Lifecycle.CountersConserve` | crates/rustykrab-memory/src/lifecycle.rs:136-152 | For each stage the counters give exactly the change of its population among the valid memories of the agent |
| `Lifecycle.TombstoneLostExactlyWhen` | crates/rustykrab-memory/src/storage.rs:1124-1147 | A batch takes a memory out of the Tombstone stage if and only if its last entry for the memory is another stage; it changes nothing else of it |
| `Lifecycle.LastUpdateWins` | crates/rustykrab-memory/src/storage.rs:1124-1147 | The last entry for a memory decides its stage; all else of the memory stays |
| `Lifecycle.StaleBatchRevivesStage` | crates/rustykrab-memory/src/storage.rs:1124-1147 | After an invalidation any batch makes the memory retrievable by stage if and only if its last entry for it does; the memory stays invalid |
| `NearDuplicates.DetectNearDuplicates` | crates/rustykrab-memory/src/lifecycle.rs:198-294 | The links afterwards are the old ones with exactly the specified writes applied; the count is their number |
| `NearDuplicates.WritesAreDistinct` | crates/rustykrab-memory/src/lifecycle.rs:236-285 | No link is written twice in one call, so the count is the number of directed links written |
| `Closeness.LinksExactlyWhen` | crates/rustykrab-memory/src/lifecycle.rs:236-285 | A link is written if and only if it joins, in either direction and with their similarity, two candidates whose similarity reaches the threshold and of which the later is among the first 50 such of the earlier |
| `Closeness.CloseFrom` | crates/rustykrab-memory/src/lifecycle.rs:240-268 | A pair is close exactly from the lower of the two thresholds on |
| `NearDuplicates.RowIsBounded` | crates/rustykrab-memory/src/lifecycle.rs:238-243 | At most 50 pairs are started for one outer memory |
| `NearDuplicates.DetectionKeepsSymmetry` | crates/rustykrab-memory/src/lifecycle.rs:246-285 | A symmetric link graph with equal weights stays one |
| `NearDuplicates.DetectionKeepsLinks` | crates/rustykrab-memory/src/lifecycle.rs:246-285 | No self-links and no weight outside [-1, 1] are added, and only candidates are linked |
| `NearDuplicates.LoadedIds` | crates/rustykrab-memory/src/lifecycle.rs:208-221 | Candidates are distinct memories of the listing |
| `Retrieval.RetrieveSemantic` | crates/rustykrab-memory/src/retrieval.rs:178-203 | First occurrences among twice the limit nearest chunks, with positions as ranks; with fewer results than the limit every memory of these chunks is listed |
| `Arms.NearestRanksFirst` | crates/rustykrab-memory/src/retrieval.rs:178-203 | A memory ranks before another in the semantic arm only when its nearest chunk comes before the nearest of the other |
| `Retrieval.RetrieveGraph` | crates/rustykrab-memory/src/retrieval.rs:217-252 | The links of the five nearest seeds, not seen before, best first, with positions as ranks |
| `Arms.ExpansionIs` | crates/rustykrab-memory/src/retrieval.rs:228-240 | The expansion collects exactly the memories the seeds lead to that are not seeds up to there, each with the weight of the first link to it |
| `Arms.HeaviestRankFirst` | crates/rustykrab-memory/src/retrieval.rs:242-252 | The graph arm lists these by falling weight, and leaves one out only when it is full and holds nothing lighter |
| `Retrieval.PickAndRate` | crates/rustykrab-memory/src/retrieval.rs:112-146 | Exactly the fused rows whose memory exists, is valid and retrievable, rated in order |
| `Retrieval.MemoryRetriever.Search` | crates/rustykrab-memory/src/retrieval.rs:59-110 | The candidates are the fusion, with sources, of the four arms over what they read |
| `Retrieval.MemoryRetriever.Recall` | crates/rustykrab-memory/src/retrieval.rs:48-172 | Run alone: at most `limit` distinct results, best first, none better left out, all live memories of the agent on a consistent database; the only change is one access per result |
| `Retrieval.FinalKeepsPromise` | crates/rustykrab-memory/src/retrieval.rs:112-155 | Filter, sort and truncation keep that promise for any candidates with distinct identifiers |
| `Relevance.ScoreInColumns` | crates/rustykrab-memory/src/types.rs:113-134 | The effective score in the columns of the row: importance, decay over whole idle hours slowed by importance, two per cent for each of up to 50 accesses, times the similarity |
| `Relevance.SimilarityDecides` | crates/rustykrab-memory/src/types.rs:118-134 | For one memory that has not faded to nothing, the more similar query scores strictly higher |
| `Relevance.BetterScoresHigher` | crates/rustykrab-memory/src/types.rs:118-134 | A memory that is as similar, important, recently used and often accessed as another, and better in one of these, scores strictly higher |
| `Relevance.ScoreIsWorth` | crates/rustykrab-memory/src/scoring.rs:187-210 | The fused score is the sum over the arms of weight over k plus the number of places before the memory, and nothing for an arm that does not list it |
| `Relevance.BetterIsAhead` | crates/rustykrab-memory/src/retrieval.rs:112-155 | Of two candidates of which one is as good in fused score, importance, idleness and accesses and better in one, that one stands before the other wherever the other stands |
| `Relevance.RecallFavoursTheBetter` | crates/rustykrab-memory/src/retrieval.rs:48-155 | For a whole recall in terms of the places in the arms: listed no later by any arm, and earlier by an arm that counts, or better in importance, idleness or accesses, a memory stands first |
| `Retrieval.AddSeedIsOwned` | crates/rustykrab-memory/src/retrieval.rs:228-240 | Expanding a seed of the agent finds only memories of the agent |
| `Retrieval.RecallNeverClamps` | crates/rustykrab-memory/src/retrieval.rs:122-133 | The four arms meet the conditions of the score bound |
| `Writer.MemoryWriter.RetainWithStage` | crates/rustykrab-memory/src/writer.rs:72-224 | An exact duplicate is only touched; otherwise row, chunks from index 0 and index entry are stored under the new identifier |
| `StorageLaws.RetainedRow` | crates/rustykrab-memory/src/writer.rs:72-166 | A retained turn is a valid, never accessed memory with its very words, its index row and one chunk per embedding in order |
| `StorageLaws.RetainingTwiceFindsIt` | crates/rustykrab-memory/src/writer.rs:84-97 | Retaining the same words for the same agent again finds it |
| `Writer.MemoryWriter.CheckDuplicate` | crates/rustykrab-memory/src/writer.rs:168-214 | The new memory is invalidated in favour of some close enough other live memory, which is touched; nothing happens exactly when there is none or no first chunk |
| `Closeness.SameEmbeddingIsDuplicate` | crates/rustykrab-memory/src/writer.rs:168-214 | A chunk of another memory with the very embedding is a duplicate at any threshold up to 1 |
| `Closeness.CloserIsDuplicate` | crates/rustykrab-memory/src/writer.rs:168-214 | Of two chunks of other memories the more similar is a duplicate if the other is |
| `Writer.MemoryWriter.RebuildFtsIndex` | crates/rustykrab-memory/src/writer.rs:254-264 | Live memories get the row of their content; all other rows stay |
| `Engine.RunKeepsInv` | crates/rustykrab-memory/src/retrieval.rs:48-252 | In every interleaving of all writers, link detection and recall: links join two memories of one agent, index rows carry their memory's agent, chunk rows are faithful, and every task's stale reads stay owned by its agent |
| `Engine.NextKeepsInv` | crates/rustykrab-memory/src/storage.rs:453-1147 | Every storage step keeps the invariant, never deletes a memory, never changes its agent or content and never makes it valid again |
| `Engine.RecallIsSound` | crates/rustykrab-memory/src/retrieval.rs:48-172 | In every interleaving a recall returns at most `limit` distinct memories, best first; each is the row its identifier had, valid, retrievable and of the calling agent, in the one earlier state the recall fetched in, and no better candidate of that state is left out |
| `Relevance.RunFavoursTheBetter` | crates/rustykrab-memory/src/retrieval.rs:112-155 | In every interleaving, among the candidates of the state a recall fetched in, the better one stands first |
| `Engine.InvalidatedIsNeverReturned` | crates/rustykrab-memory/src/retrieval.rs:112-120 | After an invalidation no recall that had not yet fetched the memory ever returns it, whatever stale writers do |
| `Engine.LinksAreSymmetricAtRest` | crates/rustykrab-memory/src/lifecycle.rs:198-294 | In every interleaving, whenever no detection stands between its two writes, the link graph is symmetric with equal weights; it never has self-links, links across agents or weights outside [-1, 1] |
| `Engine.StepLosesTombstoneExactlyWhen` | crates/rustykrab-memory/src/storage.rs:1124-1147 | Under concurrency a storage step takes a Tombstone stage away if and only if it writes a pending batch whose last entry for the memory is another stage |
| `Engine.TombstoneLostInRunExactlyWhen` | crates/rustykrab-memory/src/storage.rs:1124-1147 | The same for the tasks of any run, from each of its states to the next |
| `Engine.TombstoneLostBetween` | crates/rustykrab-memory/src/storage.rs:1124-1147 | A Tombstone stage lost between any two states of a run was overwritten by such a batch in between |
| `Engine.TombstoneIsLost` | crates/rustykrab-memory/src/lifecycle.rs:159-187 | A run in which an invalidated memory gets a retrievable stage back: the end of its session read it before and writes after |
| `ToolExecution.ExecuteWithRetries` | crates/rustykrab-agent/src/runner.rs:738-783 | The loop returns what the recursive specification says |
| `ToolExecution.RetriesStopAtFirst` | crates/rustykrab-agent/src/runner.rs:738-783 | The result is that of the first attempt that succeeds or fails for good, else of the last one allowed |
| `ToolExecution.SucceedsExactlyWhen` | crates/rustykrab-agent/src/runner.rs:738-783 | A call succeeds if and only if some allowed attempt does after nothing but transient errors |
| `ToolExecution.RunAll` | crates/rustykrab-agent/src/runner.rs:633-664 | Under any schedule every task ends with its own outcome, and at most 10 run at once |
| `ToolExecution.ExecuteToolsParallel` | crates/rustykrab-agent/src/runner.rs:599-692 | One outcome per call, in the order of the calls, however the tasks were scheduled |
| `AgentRunner.AgentRunner.Run` | crates/rustykrab-agent/src/runner.rs:150-350 | History, ending and number of provider calls are those of one specification |
| `AgentRunner.AgentRunner.RunStreaming` | crates/rustykrab-agent/src/runner.rs:361-589 | The same history, ending and calls as `run` on the same world, and the events of that specification |
| `AgentRunner.AgentRunner.InjectReflection` | crates/rustykrab-agent/src/runner.rs:695-725 | Appends one note with up to three latest errors of the last ten messages, latest first |
| `AgentRunner.EveryCallIsAnswered` | crates/rustykrab-agent/src/runner.rs:220-280 | Each assistant message with n calls is followed at once by exactly n results with matching ids in order; only the last reply to the closing request can stay unanswered |
| `AgentEvents.CallsAreBounded` | crates/rustykrab-agent/src/runner.rs:170-350 | At most `max_iterations + 1` provider calls |
| `AgentEvents.EventsTellTheHistory` | crates/rustykrab-agent/src/runner.rs:425-490 | Start events, end events and calls in the history agree one to one and in order; end events tell the recorded success |
| `AgentEvents.EventsComeInRounds` | crates/rustykrab-agent/src/runner.rs:396-490 | Events and history come in rounds, one per provider call: its text deltas, a start for each call of its reply, then an end for each of these calls in order that tells the recorded result, then a reflection when it is due; each result tells what the attempt that decided returned, fenced for the tools that read the internet; a reply without calls is answered by "Continue." when it was cut off, by nothing when it ends the turn, else by the retry note |
| `AgentEvents.DoneOnceAndLast` | crates/rustykrab-agent/src/runner.rs:508-589 | `Done` is emitted exactly when the run succeeds, once, and last |
| `AgentEvents.LoopStreams` | crates/rustykrab-agent/src/runner.rs:396-414 | The text deltas are those of the provider calls made, in order, and nothing else |
| `AgentEvents.RunPromise` | crates/rustykrab-agent/src/runner.rs:361-589 | All of these for a whole run of either loop |
| `AgentEndings.RunEndsAt` | crates/rustykrab-agent/src/runner.rs:170-350 | A run goes on while the session lasts, the provider answers and the reply does not end the turn; the first iteration where that fails, or the cap, decides the ending and makes the last provider call |
| `AgentEndings.SucceedsBeforeCapExactlyWhen` | crates/rustykrab-agent/src/runner.rs:298-331 | A run succeeds before the cap if and only if some reply before it, with neither expiry nor provider error until then, has no tool calls and stops with the end of the turn; the first such reply is the last call made |
| `AgentEndings.OneReplyIsEnough` | crates/rustykrab-agent/src/runner.rs:298-331 | A run whose first reply ends the turn makes one call and adds that reply only |
| `AgentEndings.ReflectsExactlyWhen` | crates/rustykrab-agent/src/runner.rs:283-296 | A round of tool calls is followed by a reflection if and only if it had trouble and is the n-th, 2n-th and so on of troubled rounds in a row, n being the configured number |
| `AgentEndings.ReflectionQuotes` | crates/rustykrab-agent/src/runner.rs:695-725 | A reflection quotes the latest errors of the last ten messages, latest first, at most three |
| `AgentEndings.ErrorsAreShort` | crates/rustykrab-agent/src/runner.rs:728-735 | An error reaches the history on one line and cut to 200 characters |
| `Json.FencedByCharactersExactlyWhen` | crates/rustykrab-agent/src/runner.rs:785-794 | A string is fenced if and only if it has more than 80 characters, as the comment says, unless it has at most 80 characters but more than 80 bytes |
| `Json.FenceIsInjective` | crates/rustykrab-agent/src/runner.rs:790-807 | No two tool outputs are confused by fencing |
| `Json.FenceKeepsShape` | crates/rustykrab-agent/src/runner.rs:790-807 | Fencing changes nothing but long strings, and leaves none of them bare |
| `Json.GetFenced` | crates/rustykrab-agent/src/runner.rs:790-807 | Field lookups commute with fencing, so the test for an `error` field is undisturbed |
| `Framing.FeedIsDrain` | crates/rustykrab-providers/src/anthropic.rs:388-398 | Feeding chunks is handling the complete lines of their concatenation |
| `SseStream.ChatStream.Run` | crates/rustykrab-providers/src/anthropic.rs:371-506 | The nested loops compute the pure event machine; the reply is assembled from its final state |
| `Framing.CutsDoNotMatter` | crates/rustykrab-providers/src/anthropic.rs:384-398 | Same stream, any cuts: the same lines are handled, so same reply or failure and same text deltas, for both providers |
| `SseStream.DeltasAreTheText` | crates/rustykrab-providers/src/anthropic.rs:424-430 | Whatever arrives, the emitted text deltas concatenate to the full text |
| `SseStream.StreamAgreesWithOneShot` | crates/rustykrab-providers/src/anthropic.rs:153-226 | For blocks sent one after the other, with tool inputs as JSON values, any pieces and any cuts, the streamed reply equals `parse_response` of the same reply sent at once |
| `Replies.ToolInputArrives` | crates/rustykrab-providers/src/anthropic.rs:441-449 | The end of a tool block makes the call with the JSON value that its collected text decodes to |
| `Replies.BrokenInputIsEmpty` | crates/rustykrab-providers/src/anthropic.rs:441-449 | Text that decodes to nothing makes the call with an empty object |
| `Replies.StreamSaysWhatWasSent` | crates/rustykrab-providers/src/anthropic.rs:371-506 | A streamed reply has the text, the calls with their inputs, the counts and the stop reason that were sent |
| `Payloads.AnyPayloadsCanBeSent` | crates/rustykrab-providers/src/anthropic.rs:153-226 | For any decoding of tool inputs, some encoding of all payloads is decoded as `StreamAgreesWithOneShot` assumes |
| `OllamaStream.ChatStream.Run` | crates/rustykrab-providers/src/ollama.rs:406-495 | The nested loops compute the pure machine, including the early error return |
| `OllamaStream.StreamAgreesWithOneShot` | crates/rustykrab-providers/src/ollama.rs:199-259 | For any parts and cuts the streamed reply equals `parse_response` of the same parts in one piece, with decoding assumed only to read those parts back; a last line without line feed is dropped |
| `Replies.PartsAreTheReply` | crates/rustykrab-providers/src/ollama.rs:406-495 | A streamed reply has the text and the calls of all parts in order, with arguments sent as text read as the object they spell, and the counts and the stop reason of the last part marked done |
| `OllamaStream.AnyPartsCanBeSent` | crates/rustykrab-providers/src/ollama.rs:199-259 | Every sequence of different parts has texts for which that assumption holds |
| `OllamaStream.DroppedTailExactlyWhen` | crates/rustykrab-providers/src/ollama.rs:422-428 | A last line without line feed is never handled; this changes the reply if and only if it is not blank and does not decode, or adds calls, visible text, or other final counts or stop reason |
| `Mcp.McpClient.Dispatch` | crates/rustykrab-channels/src/mcp.rs:172-184 | A response takes its sender out of the map, at most once |
| `Mcp.RunKeepsInv` | crates/rustykrab-channels/src/mcp.rs:160-270 | The invariant over requesters, reader, timeouts and cancellations |
| `Mcp.IdsAreUnique` | crates/rustykrab-channels/src/mcp.rs:235-236 | No two requests ever carry the same identifier |
| `Mcp.RepliesMatch` | crates/rustykrab-channels/src/mcp.rs:247-262 | A reply handed to a requester is the first with its identifier since it registered |
| `Mcp.ResultsAreFinal` | crates/rustykrab-channels/src/mcp.rs:247-269 | What a request returned stays what it returned |
| `Mcp.LateReplyReachesNobody` | crates/rustykrab-channels/src/mcp.rs:172-184 | A response read after its request has returned reaches no other request; after a reply or a timeout it reaches none and leaves the map alone |
| `Mcp.NoChannelIsDropped` | crates/rustykrab-channels/src/mcp.rs:260-262 | The "channel dropped" error is never reported |
| `Mcp.LeaksExactlyWhen` | crates/rustykrab-channels/src/mcp.rs:247-268 | A returned request leaves its entry behind if and only if it failed to send or was cancelled after it had registered, and no response with its identifier came |
| `Mcp.AllReturnedNonePending` | crates/rustykrab-channels/src/mcp.rs:253-269 | Once all requests have returned with a reply or timeout, nothing is pending |
| `Timestamps.CivilOfIs` | crates/rustykrab-store/src/jobs.rs:131-142 | Every instant in years of four digits has exactly its date and time |
| `Timestamps.FractionsInOrder` | crates/rustykrab-store/src/jobs.rs:131-142 | Fractions of 0, 3, 6 or 9 digits before "+00:00" sort as their values |
| `Timestamps.TextOrderIsTimeOrder` | crates/rustykrab-store/src/jobs.rs:131-142 | Comparing the RFC 3339 texts compares the instants |
| `TimestampReading.StoredTextSays` | crates/rustykrab-store/src/jobs.rs:131-142 | The stored text of an instant, its numerals read back, says its year, month, day, hour, minute, second and fraction |
| `Jobs.JobStore.CreateJob` | crates/rustykrab-store/src/jobs.rs:43-87 | A new job is enabled and strictly in the future, at the given time or at the next occurrence; which schedules fail; an error stores nothing |
| `Jobs.JobStore.GetDueJobs` | crates/rustykrab-store/src/jobs.rs:131-161 | The text comparison selects exactly the enabled jobs with next run at or before now |
| `Jobs.JobStore.MarkExecuted` | crates/rustykrab-store/src/jobs.rs:165-197 | One-shot jobs are disabled, recurring ones advanced, nothing else changes; a missing job is an error |
| `Jobs.MarkedIsNotDue` | crates/rustykrab-store/src/jobs.rs:165-197 | A marked job is not due at that time again |
| `Jobs.OneShotRunsAgainExactlyWhen` | crates/rustykrab-cli/src/main.rs:891-1000 | A one-shot job is run again if and only if it is checked before a run of it has ended: it is marked only then |
| `Jobs.OneShotRunsOnce` | crates/rustykrab-store/src/jobs.rs:180-186 | Once a run has ended a one-shot job does not run again |
| `Jobs.RecurringRunsAgainExactlyWhen` | crates/rustykrab-cli/src/main.rs:891-1000 | A recurring job is run again at a check if and only if no run of it has ended since its start, or the next occurrence after the last end has come |
| `Jobs.WaitsForNextOccurrence` | crates/rustykrab-store/src/jobs.rs:187-194 | A recurring job that has run is due again at the next occurrence after that run, and not before |
| `Jobs.NoDoubleRun` | crates/rustykrab-store/src/jobs.rs:187-194 | A recurring job runs at most once at any one instant, once the first run has ended |

## Left out

- HTTP, mail, subprocess, file system, SQLite's own behaviour, sandboxing, authentication, UI, video, browser and network tools: plumbing, or only easy members.
- Storage failures: an operation of the memory engine can stop at any point (`Stopped` tasks), but a failed statement is not distinguished from a stop; arms of recall may fail and then contribute nothing.
- Rounding, NaN and infinities; a fusion constant that makes some `k + rank` zero, which a negative whole number can and the configuration check does not refuse (`Scoring.NoZero`).
- SHA-256, importance scoring, embedding models and fact extraction: functions of the text, or absent. That embeddings are a function of the text is what makes link weights equal in both directions.
- FTS5 matching and ranking, and the tokenizing of the query: an arbitrary match and an arbitrary rank.
- Memory columns the engine does not read (scope, user, tags, confidence, occurrence times, consolidation), the unused single-row stage update, and the drift check.
- Engine.RunKeepsInv: identifiers are chosen new in the step that inserts the row, because a UUID is assumed never to repeat; the clock is arbitrary in each step.
- Storage.SqliteMemoryStorage.ListByTimeRange: compares instants; `CreationTimes.RecentIsRecentByText` shows that the texts the query compares select the same for years of four digits, beyond which texts do not sort as instants.
- Which of two concurrent near-duplicates survives: both writers can invalidate each other.
- Mutual exclusion of chat turns in the command-line front end: the busy check and the busy mark take the lock separately.
- A bound of 50 links per memory: the code bounds the pairs of the outer memory only.
- 32-bit and 64-bit wrap-around of counters and request identifiers; `usize` limits except where numbers are parsed; underflow of the instant arithmetic at process start.
- Chunking.ChunkByTurns: the Unicode class of alphanumeric characters is the parameter `isName`.
- Lossy UTF-8 decoding of network chunks: cuts are between characters.
- SseStream.StreamAgreesWithOneShot: blocks are sent one after the other, as the service does; interleaved blocks would order tool calls by their ends. JSON decoding is a parameter with a left inverse, which `Payloads` shows to exist.
- AgentRunner.EveryCallIsAnswered and the lemmas of `AgentEvents`: a provider is assumed not to answer with a tool-result message; message ids, times, tracing, callbacks that persist messages and the choice of tool schemas are not modelled. A panic of a single, unspawned call is not modelled.
- ToolExecution.ExecuteWithRetries: the waiting between attempts, and permission, schema and sandbox checks inside one attempt, are part of the arbitrary outcome.
- Mcp.RunKeepsInv: the writer task and its queue; a send either succeeds or fails.
- Jobs.JobStore.GetDueJobs: reading stored times back, cron parsing and date parsing are foreign; a next occurrence is assumed strictly later, all times in years of four digits, without leap seconds.
- PatchParser.ParseUnifiedDiff: the error texts; the applier's path checks and file writes.
- The binary form of embeddings, JSON forms of rows, keyword routing, voting, subnet expansion, simple tables: only easy members.
