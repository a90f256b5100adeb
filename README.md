# memory-mcp in Dafny

This project models the core of memory-mcp, a namespaced memory store that agents reach over JSON-RPC (the Model Context Protocol). It covers three layers:

- a service layer that validates, ranks and packs memories;
- a memories table;
- a server that reads requests from a byte stream, dispatches them and writes replies.

Around these sit the tool catalogue, the command list of the bootstrap installer, configuration checks, and the state of the admin dashboard. Every operation is stated in Dafny and proved against a specification.

## Layout

- **`Types.dfy`** holds the records and inputs of `pkg/types/types.go`: `MemoryRecord`, `WriteInput`, `SearchInput`, `SearchResult`, `ContextPackInput`, `ContextPack` and `PromoteInput`.
  - Timestamps are integers in nanoseconds.
  - Metadata is an optional JSON value.
  - `Wrap64` models two's-complement 64-bit wrap-around.
- **`Text.dfy`** models the Go `strings` helpers the code relies on: `TrimSpace`, `Fields`, `ToLower`, `Split`, `Join` and decimal formatting.
  - White space is the full `unicode.IsSpace` set. Letters, digits and lower-casing are ASCII only.
- **`Sorting.dfy`** is a stable descending insertion sort on sequences, with its properties: sorted, a permutation, and stable for every key value.
  - `sort.SliceStable` in the service is modelled by it.
- **`Config.dfy`** covers `Default`, `Validate` and `ExpandPath` of `internal/config/config.go`.
  - The home directory, `filepath.Join` and `regexp.Compile` are parameters.
- **`Store.dfy`** has the memories table of `internal/store/sqlite.go`, as the class `MemoryStore`.
  - The table is a sequence of rows in insertion order, with unique ids. It offers `InsertMemory`, `Promote`, `ExpireShort`, `Stats`, `GetMemory` and `SearchCandidates`.
  - The LIKE search path is a filter on the rows, sorted newest first.
  - Full-text search is an oracle: a function from the query to a result or an error.
  - The pure helpers are modelled as loops proved against functions: `tokenizeQueryTerms`, `buildFTSMatchQuery` and `splitSQLStatements`.
- **`Memory.dfy`** has the service of `internal/memory/service.go`: `Write`, `Search`, `ContextPack`, `Promote` and `ExpireShort`, over a `MemoryStore`.
  - Each is a method proved against a function of the table: `PrepareWrite`, `SearchSpec` and `ContextPackSpec`.
  - The ranking loop and the pack-assembly loop are methods (`RankCandidates`, `Assemble`) with invariants.
  - The clock, the new id, the namespace-pattern match and the recency decay are parameters. The decay stands for `exp(-days/14)`, with days the age in hours divided by 24 (`recencyScore`). Scores are reals.
- **`Tools.dfy`** is the tool catalogue of `internal/mcp/tools.go`, as constant data, and its JSON.
- **`Wire.dfy`** covers the byte-level transport of `internal/mcp/server.go`:
  - wire-mode detection;
  - the JSON-line reader and the header-framed reader, as functions on a byte sequence and a position;
  - the classes `Reader` and `Writer`, whose methods are the loops of the source proved against those functions;
  - the writers and the round-trip lemmas.
- **`Server.dfy`** has `handle`, `handleToolCall`, `recordRequest`, the two counters and the `Serve` loop of `internal/mcp/server.go`, as the class `Server`.
  - JSON decoding and encoding are an oracle record (`Codec`). It decodes a request, the arguments of each tool and the tool name, and it encodes a reply.
  - The request-log sink is a sequence the server appends to.
  - `Serve`'s loop body is the method `Round`. It takes the messages, replies, tool-call outcomes and tables so far as ghost history and extends each by one message.
- **`Bootstrap.dfy`** covers `BuildCommands` and the option defaulting of `Bootstrap` in `internal/bootstrap/bootstrap.go`.
  - `exec.LookPath` is a predicate on the CLI name.
- **`Admin.dfy`** covers the dashboard model of `internal/admin/tui.go` as the class `Dashboard`:
  - `appendLog`, the `Update` branches, and the refresh that a `dashboardMsg` applies;
  - the helpers `truncateText`, `compactWhitespace` and the two row labels.
  - The log keeps a ghost history of every entry, and the shown log is its newest `maxLogs` entries.

## Where the model follows the code

- The wire mode is not fixed for a connection. `Serve` calls `readMessage` for every message, and that call detects the mode again each time, which is what `Server.Server.Serve` and `Wire.ReadMessage` model. Each reply goes out in the mode its request came in.
- A parse-error reply is always framed (`internal/mcp/server.go:67-82`). In the model it has a null id and does not go through `handle`.
- For a valid ttl, `expires_at` in the model is `now + ttl` seconds, as a positive ttl evidently intends. The code as written wraps around for a very large ttl; see Findings.

## Model

| member | source | states |
|---|---|---|
| Types.Wrap64 | internal/memory/service.go:72 | the result is the int64 that Go's multiplication wraps to: in range, equal to the input when the input fits, and congruent to it modulo 2^64 |
| Config.UserHomeDir | internal/config/config.go:119-125 | the home directory when it is known, otherwise "." |
| Config.Default | internal/config/config.go:27-38 | default server name "memory-mcp", log level "info", db path home/.memory-mcp/memories.db, the default namespace pattern, ttl 48 hours, check interval 60, pack items 8, search k 10 |
| Config.Validate | internal/config/config.go:67-90 | passes exactly when both names are non-empty, all four limits are positive and the pattern compiles; otherwise the message of the first failing check: "server_name must not be empty", "db_path must not be empty", the four "... must be > 0" limit messages in source order, and "invalid namespace_pattern: " followed by the compiler's error |
| Config.DefaultIsValid | internal/config/config.go:27-38 | when the default pattern compiles, the default configuration passes Validate and has positive limits |
| Config.ExpandPath | internal/config/config.go:106-117 | "" stays "", "~" becomes home, "~/x" becomes join(home, x), anything else is unchanged |
| Config.ExpandPathIdempotent | internal/config/config_test.go:8-17 | expanding an expanded path changes nothing, for a home that does not itself start with "~" |
| Memory.Truncate | internal/memory/service.go:257-266 | unchanged when it fits; otherwise exactly limit characters, ending in "..." after the prefix when limit is at least 3, a plain prefix below that |
| Memory.Normalize | internal/memory/service.go:268-272 | the dedup key is at most 180 characters |
| Memory.EstimateTokens | internal/memory/service.go:283-290 | at least 1; 1 for the empty string; otherwise the ceiling of length / 4 |
| Memory.AutoSummary | internal/memory/service.go:249-255 | at most 160 characters, empty exactly when the content is blank, the trimmed content when it fits |
| Memory.ValidateNamespace | internal/memory/service.go:238-247 | accepted exactly when not blank and the trimmed namespace matches the pattern; a blank one is the "namespace is required" error |
| Memory.WriteScope | internal/memory/service.go:44-50 | the normalised scope of a write is never empty (empty becomes "short") |
| Memory.ClampImportance | internal/memory/service.go:56-59 | always in 1..5; kept when in 1..5, otherwise 3 |
| Memory.SummaryFor | internal/memory/service.go:61-64 | the trimmed summary when one is given, otherwise the auto summary of the content, and never empty for non-blank content |
| Memory.TtlSeconds | internal/memory/service.go:66-71 | a positive ttl is kept; otherwise the default hours times 3600 |
| Memory.Expiry | internal/memory/service.go:66-74 | now plus the ttl in nanoseconds, strictly after now whenever the ttl or the default is positive |
| Memory.ExpiryOverflowCounterexample | internal/memory/service.go:72 | with a ttl of 10^10 seconds the code as written gives an expiry before now, while the intended expiry is after it |
| Memory.ExpiryAgreesInRange | internal/memory/service.go:66-74 | when the product fits in int64 the code as written and the intended expiry agree |
| Memory.PrepareWrite | internal/memory/service.go:40-88 | namespace, scope and content errors in that order, succeeding exactly when all three pass; the record carries the id, namespace, content, agent and metadata, the normalised scope, clamped importance, defaulted summary, created and accessed at now, no promotion, and an expiry exactly for short scope |
| Memory.WriteWellFormed | internal/memory/service_test.go:41-57 | a written record is well formed (scope short or long, importance 1..5, expiry iff short, non-blank content, non-empty summary), and a short one expires after now |
| Memory.PromoteWellFormed | internal/store/sqlite.go:349-352 | promoting a well-formed record keeps it well formed |
| Memory.TableWellFormed | internal/store/sqlite.go:349-381 | promotion and expiry keep every row of a well-formed table well formed |
| Memory.SearchK | internal/memory/service.go:107-112 | k in 1..100 is kept, above 100 it is 100, and with a positive default it always lands in 1..100 |
| Memory.Scored | internal/memory/service.go:120-132 | keeps the record and lexical score; the score is 0.60 lexical + 0.25 recency + 0.15 importance |
| Memory.SearchCheck | internal/memory/service.go:100-106 | passes exactly when the namespace is valid and the normalised scope is "", short or long; namespace errors come first |
| Memory.RankMeaning | internal/memory/service.go:120-140 | at most k results, by non-increasing score, each a scored candidate; no candidate left out scores above one that is kept; for every score value the results with it are a prefix of the candidates with it in candidate order; with few candidates a permutation of all of them |
| Memory.RankWithoutMetadata | internal/memory/service.go:142-146 | without include_metadata the same ranking with every metadata dropped |
| Memory.WithKeyOfPrefix | internal/memory/service.go:138-140 | cutting the sorted list keeps, per score, a prefix of those with that score |
| Memory.RankCandidates | internal/memory/service.go:120-146 | the loop of scoring, sorting, cutting and stripping computes the ranking |
| Memory.Rank | internal/memory/service.go:120-146 | as many results as candidates, cut to k (none for a negative k); without include_metadata no result keeps metadata |
| Memory.Recency | internal/memory/service.go:274-280 | 1 for a record created at or after now, otherwise the decay of its age |
| Memory.NormalizeScope | internal/memory/service.go:103 | the scope (the same normalisation Write does at line 44) is no longer than the input and has no leading or trailing white space |
| Memory.SearchSpec | internal/memory/service.go:99-148 | fails exactly when the namespace or scope check fails, with that check's error; otherwise at most the clamped k results, and none with metadata unless it was asked for |
| Memory.Pack | internal/memory/service.go:173-208 | the pack's token estimate stays within a non-negative budget, and it has no more ids than results |
| Memory.ContextPackSpec | internal/memory/service.go:151-209 | fails exactly when the search check fails, with that error; otherwise the estimate is within the budget (512 when not positive) and there are at most the clamped k ids |
| Memory.EntryText | internal/memory/service.go:179-185 | the trimmed summary, else the trimmed content; empty exactly when both are blank |
| Memory.LineOf | internal/memory/service.go:193 | a line is "- [id] " and at most 300 characters of text |
| Memory.Cost | internal/memory/service.go:194 | every line costs at least one token |
| Memory.TokensOf | internal/memory/service.go:194-200 | the tokens of n lines are at least n; Memory.TokensOfSnoc gives the running total |
| Memory.IdsOf | internal/memory/service.go:199 | the ids, one per entry, in order |
| Memory.LinesOf | internal/memory/service.go:198 | the lines, one per entry, in order |
| Memory.Eligible | internal/memory/service.go:179-191 | skipping blanks and repeated keys keeps at most as many entries; Memory.EligibleKeys, Memory.EligibleInOrder and Memory.EligibleCovers state the rest |
| Memory.Fit | internal/memory/service.go:194-197 | the packed entries are a prefix of the eligible ones; Memory.FitWithin, Memory.FitMaximal and Memory.FitLongest state the rest |
| Memory.PackBudget | internal/memory/service.go:152-154 | always positive; a positive budget is kept (otherwise 512) |
| Memory.PackK | internal/memory/service.go:155-160 | in 1..50 for a positive default; k in 1..50 is kept |
| Memory.EntriesOf | internal/memory/service.go:173-185 | one entry per search result, in rank order |
| Memory.FitWithin | internal/memory/service.go:194-197 | the fitted entries never exceed the budget |
| Memory.FitMaximal | internal/memory/service.go:194-197 | when fitting stops early, the next line would overrun the budget |
| Memory.FitLongest | internal/memory/service.go:194-197 | every prefix within budget is no longer than the fitted one |
| Memory.EligibleKeys | internal/memory/service.go:187-191 | eligible entries have pairwise distinct keys, non-empty text and unseen keys |
| Memory.EligibleInOrder | internal/memory/service.go:173-191 | eligible entries are a subsequence of the entries |
| Memory.EligibleCovers | internal/memory/service.go:179-191 | every entry with text is either already seen or represented by an eligible entry with its key; Memory.EligibleFirst states that it is the first entry with that key |
| Memory.EligibleFirst | internal/memory/service.go:185-191 | an entry with text and an unseen key that no earlier entry with text shares is eligible |
| Memory.SubsequencePrefix | internal/memory/service.go:173-201 | a prefix of a subsequence is a subsequence |
| Memory.PackMeaning | internal/memory/service.go:173-207 | the pack is the longest budget-fitting prefix of the deduplicated non-blank entries in rank order: ids match, tokens are the total and within budget, the next entry would overrun, order kept, keys distinct, no blank text |
| Memory.PackFits | internal/memory/service.go:194-207 | ids and token total are those of the longest prefix of eligible entries that fits, and it stops at the first overrun |
| Memory.PackDistinct | internal/memory/service.go:179-191 | the packed entries keep search order, have distinct keys and no empty text |
| Memory.PackWithinBudget | internal/memory/service_test.go:59-85 | the reported tokens never exceed the budget (the given one when positive), and there are no more ids than results |
| Memory.EligibleStep | internal/memory/service.go:179-191 | one step of the dedup loop: a blank or seen entry is skipped, another is kept and its key marked seen |
| Memory.FitCons | internal/memory/service.go:194-197 | one step of the budget loop: stop at an overrun, else include and reduce the room |
| Memory.TokensOfSnoc | internal/memory/service.go:200 | the running total grows by the line's cost |
| Memory.SnocOfEntries | internal/memory/service.go:198-199 | appending an entry appends its line and its id |
| Memory.PackStep | internal/memory/service.go:173-201 | the loop invariant of pack assembly is kept by each iteration |
| Memory.Assemble | internal/memory/service.go:173-207 | the loop with its seen set, lines, ids, running total and break computes the pack |
| Memory.FromStore | internal/memory/service.go:90-95 | a store record passes through, and a store error becomes a storage error |
| Memory.PromoteCheck | internal/memory/service.go:213-221 | passes exactly when the id is not blank and the target is "" or "long"; a blank id is reported first |
| Memory.PromoteError | internal/memory/service.go:223-229 | the store's "no rows" and only that becomes "memory not found" |
| Memory.Service.constructor | internal/memory/service.go:31-37 | the service holds the given store, configuration and parameters |
| Memory.Service.Write | internal/memory/service.go:40-96 | an invalid write fails with PrepareWrite's error and leaves the table alone; a valid one appends the prepared record, unless the id is taken, which is a storage error |
| Memory.Service.Search | internal/memory/service.go:99-148 | the result is the checks, then ranking of 3k candidates of the store down to k |
| Memory.Service.ContextPack | internal/memory/service.go:151-209 | the result is a search with the pack's k and no metadata, packed under the defaulted budget with the normalised dedup key |
| Memory.Service.Promote | internal/memory/service.go:212-231 | check errors leave the table alone; a missing id is "not found"; otherwise the row is promoted and the promoted row is returned |
| Memory.Service.ExpireShort | internal/memory/service.go:234-236 | the table loses exactly its expired short rows and their count is returned |
| Store.Ids | internal/store/sqlite.go:73-77 | the ids of the rows, in order |
| Store.Stored | internal/store/sqlite.go:143-146 | a record is stored with metadata, {} when it had none, and is otherwise unchanged |
| Store.PromotedRow | internal/store/sqlite.go:350-352 | scope long, no expiry, promoted and accessed at now, every other column unchanged |
| Store.PromoteRows | internal/store/sqlite.go:349-365 | same length; the row with the id is promoted, every other row is unchanged |
| Store.Survivors | internal/store/sqlite.go:367-381 | the remaining rows are rows of the table that are not expired short rows; Store.SurvivorsExact gives the converse |
| Store.Lookup | internal/store/sqlite.go:510-523 | found exactly when the id is in the table, and then a row with that id |
| Store.LikeRows | internal/store/sqlite.go:255-279 | filtering never adds rows; which rows pass is stated by Store.LikeRowsExact |
| Store.SearchLike | internal/store/sqlite.go:255-302 | at most limit candidates; their filter, score, order, completeness and recency are stated by Store.SearchLikeMeaning |
| Store.MemoryStore.constructor | internal/store/sqlite.go:80 | a new store is empty and valid |
| Store.MemoryStore.InsertMemory | internal/store/sqlite.go:142-193 | a taken id fails and changes nothing; otherwise the stored record is appended and the input returned |
| Store.MemoryStore.Promote | internal/store/sqlite.go:349-365 | an existing id updates the table to PromoteRows; a missing id is "no rows" and changes nothing |
| Store.MemoryStore.ExpireShort | internal/store/sqlite.go:367-381 | the table becomes its survivors and the deleted count is returned |
| Store.MemoryStore.Stats | internal/store/sqlite.go:383-398 | total rows, short and long counts, and the rows whose expiry is at or before now, whatever their scope; short + long never exceed total |
| Store.MemoryStore.GetMemory | internal/store/sqlite.go:510-523 | succeeds exactly when the id is present, with a row of that id; otherwise "no rows" |
| Store.MemoryStore.SearchCandidates | internal/store/sqlite.go:195-216 | the candidates are the FTS-or-LIKE choice on the current table |
| Store.ScopeCountsBounded | internal/store/sqlite.go:383-398 | short and long counts together never exceed the total |
| Store.PromoteRowsKeepsIds | internal/store/sqlite.go:349-352 | promotion keeps the ids and their uniqueness |
| Store.PromoteThenLookup | internal/store/sqlite_test.go:89-98 | after promotion, looking the id up gives the promoted form of the old row |
| Store.PromoteOthersUnchanged | internal/store/sqlite.go:350-352 | every other id looks up as before |
| Store.SurvivorsExact | internal/store/sqlite.go:368 | a row survives exactly when it was in the table and is not an expired short row |
| Store.ExpireAccounts | internal/store/sqlite.go:367-381 | survivors plus deleted count equals the rows before |
| Store.ExpireRerun | internal/store/sqlite_test.go:100-123 | expiring again at the same time deletes nothing |
| Store.ExpireKeepsLong | internal/store/sqlite_test.go:100-123 | every long row survives |
| Store.SurvivorsUnique | internal/store/sqlite.go:367-381 | expiry keeps ids unique |
| Store.LikeRowsExact | internal/store/sqlite.go:256-279 | a row passes the filter exactly when its namespace matches, it has not expired, its scope matches any filter, and every term (or the raw query when there are none) occurs in its content or summary |
| Store.SearchLikeMeaning | internal/store/sqlite.go:255-302 | at most limit rows, each passing the filter, scored 0.4 (0.25 for an empty query), newest first; all of them when they fit, and otherwise no matching row left out is newer than one returned |
| Store.SearchLikeNewest | internal/store/sqlite.go:280-298 | with a positive limit, no matching row left out is newer than a returned one |
| Store.Candidates | internal/store/sqlite.go:195-216 | on the LIKE path (no full-text table or no query terms) at most the limit, 10 when not positive, and every candidate is a row of the namespace |
| Store.QueryTerms | internal/store/sqlite.go:304-335 | the terms are distinct, non-empty, lower-case letters and digits |
| Store.FtsMatch | internal/store/sqlite.go:337-347 | empty exactly for no terms; one term gives that term quoted; otherwise it starts with a quote |
| Store.SqlStatements | internal/store/sqlite.go:120-131 | every statement is a non-empty trimmed body without ";" followed by one ";" |
| Store.SearchLikeSound | internal/store/sqlite.go:256-279 | every candidate passes the filter with the fixed lexical score |
| Store.SearchLikeOrdered | internal/store/sqlite.go:280 | candidates are in non-increasing created_at order |
| Store.SearchLikeComplete | internal/store/sqlite.go:280-298 | when the matching rows fit the limit, every one of them is returned |
| Store.CandidatesPath | internal/store/sqlite.go:195-216 | limit 10 when not positive; FTS rows only when there are terms, FTS is enabled and it succeeds with at least one row; otherwise the LIKE rows |
| Store.Flush | internal/store/sqlite.go:313-324 | a finished word is added once, only when new and non-empty, keeping the seen set equal to the terms |
| Store.TokenizeQueryTerms | internal/store/sqlite.go:304-335 | the loop computes the deduplicated runs of the trimmed query |
| Store.Dedup | internal/store/sqlite.go:313-324 | dropping repeats never lengthens; Store.DedupElements, Store.DedupDistinct and Store.DedupFirstSeen state the rest |
| Store.RunsAccSnoc | internal/store/sqlite.go:326-333 | one character advances the tokenizer state by one step |
| Store.RunsAccPrefix | internal/store/sqlite.go:326-333 | the state after i + 1 characters is one step from the state after i |
| Store.DedupSnoc | internal/store/sqlite.go:313-324 | one more word is appended exactly when it was not already a term |
| Store.RunsAccShape | internal/store/sqlite.go:326-333 | every finished run and the pending word are lower-case letters and digits, and finished runs are non-empty |
| Store.DedupElements | internal/store/sqlite.go:313-324 | dedup keeps exactly the same set of words |
| Store.DedupDistinct | internal/store/sqlite.go:313-324 | dedup leaves no duplicates |
| Store.FirstIndex | internal/store/sqlite.go:309-324 | the first position of a word |
| Store.FirstIndexUnique | internal/store/sqlite.go:309-324 | the first position is determined by its defining property |
| Store.FirstIndexSnoc | internal/store/sqlite.go:309-324 | appending does not move a word's first position |
| Store.DedupFirstSeenNew | internal/store/sqlite.go:313-324 | a new word keeps the order by first occurrence |
| Store.DedupFirstSeen | internal/store/sqlite.go:309-324 | dedup lists words by increasing first occurrence |
| Store.QueryTermsOfBlank | internal/store/sqlite.go:305-308 | a blank query has no terms |
| Store.QueryTermsDistinct | internal/store/sqlite.go:309-324 | no term repeats |
| Store.QueryTermsAlnum | internal/store/sqlite.go:326-333 | every term is non-empty lower-case letters and digits |
| Store.RunsShape | internal/store/sqlite.go:326-333 | every run is non-empty lower-case letters and digits |
| Store.QueryTermsFirstSeen | internal/store/sqlite.go:304-335 | the terms are exactly the runs of the trimmed query, ordered by first occurrence |
| Store.RunsAccAfterSeparator | internal/store/sqlite.go:326-333 | a separator ends the pending run |
| Store.RunsAtSeparator | internal/store/sqlite.go:326-333 | runs split at any non-alphanumeric character |
| Store.RunsOfWord | internal/store/sqlite.go:326-333 | a word of letters and digits is one lower-cased run |
| Store.RunsAccOfWord | internal/store/sqlite.go:326-333 | reading a word leaves it pending, lower-cased |
| Store.Escape | internal/store/sqlite.go:343 | escaping never shortens; Store.UnescapeEscape shows it loses nothing |
| Store.Quote | internal/store/sqlite.go:344 | a quoted term is its escape between double quotes |
| Store.BuildFtsMatchQuery | internal/store/sqlite.go:337-347 | the loop's result is "" for no terms, else the quoted terms joined by " AND " |
| Store.UnescapeEscape | internal/store/sqlite.go:343 | doubling quotes loses nothing: reading back gives the term |
| Store.EscapeNoQuote | internal/store/sqlite.go:343 | a term without quotes is unchanged by escaping |
| Store.SplitSqlStatements | internal/store/sqlite.go:120-131 | the loop computes the trimmed non-blank pieces, each with ";" appended |
| Store.StatementOfShape | internal/store/sqlite.go:123-128 | a piece without ";" gives at most one well-terminated statement |
| Store.StatementsShape | internal/store/sqlite.go:123-129 | all statements from ";"-free pieces are well terminated |
| Store.TrimKeepsOut | internal/store/sqlite.go:124 | trimming adds no character |
| Store.SqlStatementsShape | internal/store/sqlite.go:120-131 | every statement is a trimmed non-empty body without ";", followed by one ";" |
| Store.EachTerminated | internal/store/sqlite.go:128 | each body with ";" appended |
| Store.StatementsCons | internal/store/sqlite.go:123-129 | the statements of a list of pieces are those of the first piece followed by those of the rest |
| Store.SqlStatementsOfTerminated | internal/store/sqlite.go:120-131 | splitting a script of terminated statement bodies gives back exactly those statements |
| Store.SqlStatementsCons | internal/store/sqlite.go:120-131 | a body and ";" in front of a script splits into that statement and the rest's |
| Sorting.SortDescSorted | internal/memory/service.go:134-136 | the sort is by non-increasing score |
| Sorting.SortDescPermutes | internal/memory/service.go:134-136 | the sort is a permutation |
| Sorting.SortDescStable | internal/memory/service.go:134-136 | the sort is stable: items with equal score keep their order |
| Tools.FieldNameInjective | internal/mcp/tools.go:15-57 | distinct arguments have distinct JSON keys |
| Tools.Lookup | internal/mcp/server.go:259-301 | a name selects exactly the tool with that name, and any other name selects none (unknown tool) |
| Tools.ToolDefinitions | internal/mcp/tools.go:10-60 | four definitions, one per catalogue tool, in order |
| Tools.CatalogueNames | internal/mcp/tools.go:10-60 | the names are memory_write, memory_search, memory_get_context_pack, memory_promote, in that order |
| Tools.CatalogueMatchesDispatch | internal/mcp/tools.go:13-51 | a name is dispatched exactly when the catalogue lists it |
| Tools.SchemasWellFormed | internal/mcp/tools.go:62-68 | every required field is a declared property and none is required twice |
| Tools.RequiredFields | internal/mcp/tools.go:26 | required lists are [namespace, content], [namespace, query], [namespace, query, token_budget], [memory_id] |
| Tools.ScopeEnums | internal/mcp/tools.go:17 | every scope property is a string that allows [short, long]; only memory_promote has target_scope, and it allows only [long] |
| Tools.StringsJson | internal/mcp/tools.go:62-68 | one JSON string per item |
| Tools.PropertiesJson | internal/mcp/tools.go:62-68 | the properties object has exactly the declared keys, each with its property's JSON |
| Tools.DefinitionsJson | internal/mcp/server.go:157-159 | the tools/list array has one JSON object per definition, in order |
| Wire.Latin1 | internal/mcp/server.go:401 | byte-per-character text has the same codes |
| Wire.LowerBytes | internal/mcp/server.go:400 | byte-wise lower-casing keeps length |
| Wire.IndexByte | internal/mcp/server.go:408 | a found newline is at or after the start and is that byte |
| Wire.IndexByteFirst | internal/mcp/server.go:408 | the found byte is the first one, and none means absent |
| Wire.IndexByteFinds | internal/mcp/server.go:425 | the first occurrence is found |
| Wire.SpaceEnd | internal/mcp/server.go:412 | the start of the trimmed line is within bounds and not a space |
| Wire.SpaceStart | internal/mcp/server.go:412 | the end of the trimmed line is within bounds and not after a space |
| Wire.SpaceEndSkipsSpace | internal/mcp/server.go:412 | only spaces are skipped at the front |
| Wire.SpaceStartSkipsSpace | internal/mcp/server.go:412 | only spaces are dropped at the back |
| Wire.Trimmed | internal/mcp/server.go:412 | the trimmed line is empty or starts and ends with non-space |
| Wire.TrimmedDropsSpace | internal/mcp/server.go:412 | trimming removes only white space at both ends |
| Wire.AllSpaceTrims | internal/mcp/server.go:413 | an all-space line trims to empty |
| Wire.TrimmedOfTrimmed | internal/mcp/server.go:412 | a line with non-space ends trims to itself |
| Wire.EolStart | internal/mcp/server.go:429 | the carriage returns and newlines at the end are cut |
| Wire.EolStartDropsEol | internal/mcp/server.go:429 | only CR and LF are cut |
| Wire.TrimEolDropsEol | internal/mcp/server.go:429 | TrimRight("\r\n") keeps a prefix and drops only CR or LF |
| Wire.SpaceEndOfSlice | internal/mcp/server.go:412 | trimming a slice agrees with trimming in place |
| Wire.SpaceStartOfSlice | internal/mcp/server.go:412 | trimming a slice agrees with trimming in place |
| Wire.EolStartOfSlice | internal/mcp/server.go:429 | cutting the line end of a slice agrees with cutting in place |
| Wire.TrimSpaceOfSlice | internal/mcp/server.go:412 | bytes.TrimSpace on a slice is the in-place trim |
| Wire.TrimEolOfSlice | internal/mcp/server.go:429 | TrimRight on a slice is the in-place cut |
| Wire.Atoi | internal/mcp/server.go:438 | a parsed number fits in int64 and comes from an optionally signed non-empty digit string |
| Wire.Decimal | internal/mcp/server.go:345 | the decimal form is non-empty digits |
| Wire.DigitsValueOfDecimal | internal/mcp/server.go:345 | the decimal form reads back as the number |
| Wire.AtoiOfDecimal | internal/mcp/server.go:438 | Atoi reads the written length back |
| Wire.SkipSpace | internal/mcp/server.go:385-394 | stops within bounds at a non-space byte or the end |
| Wire.SkipSpaceSkipsSpace | internal/mcp/server.go:385-394 | only white space is consumed |
| Wire.Detect | internal/mcp/server.go:384-405 | detection gives a mode, or end of input; Wire.DetectClassifies states which |
| Wire.DetectClassifies | internal/mcp/server.go:384-405 | end of input exactly when only white space remains; framed exactly when the next bytes, lower-cased, start with "content-length:"; otherwise line mode |
| Wire.ReadJsonLine | internal/mcp/server.go:407-420 | a line read is non-empty, trimmed, and moves forward; the only failure is end of input |
| Wire.ReadJsonLineStep | internal/mcp/server.go:408-418 | one read: the line up to the newline, trimmed, else skip and read again |
| Wire.ReadJsonLineUpTo | internal/mcp/server.go:412-419 | a non-blank line is returned; a blank one is skipped; blank at the end is end of input |
| Wire.ParseHeader | internal/mcp/server.go:433-443 | a length header carries an int64 value |
| Wire.ParseHeaderIgnores | internal/mcp/server.go:433-437 | a line without ":" is ignored, and a recognised one has key "content-length" in any case |
| Wire.ReadHeaders | internal/mcp/server.go:423-447 | reading headers moves forward; failures are end of input or an invalid length |
| Wire.ReadHeadersStep | internal/mcp/server.go:424-444 | a header line updates the length when it is Content-Length (the last one wins) and reading continues |
| Wire.ReadHeadersUpTo | internal/mcp/server.go:424-444 | a blank line ends the headers with the length so far; another line is parsed and reading continues |
| Wire.ReadFramed | internal/mcp/server.go:422-454 | a framed read returns a non-empty body and moves forward |
| Wire.ReadMessage | internal/mcp/server.go:372-382 | a message is non-empty, moves forward, and is read in the detected mode |
| Wire.Frame | internal/mcp/server.go:340-353 | a frame ends with the payload |
| Wire.Line | internal/mcp/server.go:355-370 | a line is the payload and a newline |
| Wire.Encode | internal/mcp/server.go:355-370 | framed mode writes a frame, line mode a line |
| Wire.ParseHeaderOfFrame | internal/mcp/server.go:345 | the written header line parses as Content-Length n |
| Wire.FrameLayout | internal/mcp/server.go:340-353 | positions of the header line, the blank line and the payload in a frame |
| Wire.ReadHeadersOfHeaderLine | internal/mcp/server.go:433-443 | reading the written header line records its length |
| Wire.ReadHeadersAtBlank | internal/mcp/server.go:429-432 | the blank line ends the headers |
| Wire.ReadHeadersOfFrame | internal/mcp/server.go:422-447 | the headers of a frame give the payload's length and end at the payload |
| Wire.PayloadOfFrame | internal/mcp/server.go:449-453 | the bytes after the headers are exactly the payload |
| Wire.ReadFramedOfFrameParts | internal/mcp/server.go:422-454 | with those headers and bytes the framed read returns the payload |
| Wire.DetectOfFrame | internal/mcp/server.go:384-405 | a frame is detected as framed, with nothing skipped |
| Wire.ReadMessageOfFramed | internal/mcp/server.go:372-382 | a detected frame is read by the framed reader |
| Wire.ReadMessageOfFrameParts | internal/mcp/server.go:372-382 | the message read is the frame's payload, ending after it |
| Wire.FramedRoundTrip | internal/mcp/server_test.go:78-98 | reading what writeFramedMessage wrote, followed by anything, gives back the payload in framed mode, ending right after it |
| Wire.ReadLineOfLine | internal/mcp/server.go:407-420 | an encoded line, trimmed, comes back whole |
| Wire.DetectOfLine | internal/mcp/server.go:384-405 | a JSON line is detected as line mode |
| Wire.ReadMessageOfJsonLine | internal/mcp/server.go:372-382 | a detected line is read by the line reader |
| Wire.LineRoundTrip | internal/mcp/server_test.go:122-151 | reading what the line writer wrote gives back the payload in line mode |
| Wire.BlankLinesEof | internal/mcp/server.go:413-416 | only blank lines to the end give end of input |
| Wire.Reader.constructor | internal/mcp/server.go:48 | a reader starts at position 0 of its input |
| Wire.Reader.DetectWireMode | internal/mcp/server.go:384-405 | the loop consumes exactly the leading white space and returns Detect's answer |
| Wire.Reader.ReadLine | internal/mcp/server.go:408 | returns the bytes through the next newline, or to the end |
| Wire.Reader.ReadJsonLineMessage | internal/mcp/server.go:407-420 | the recursive reader returns what ReadJsonLine specifies and moves to its end |
| Wire.Reader.ReadHeaderLines | internal/mcp/server.go:423-447 | the header loop returns what ReadHeaders specifies |
| Wire.Reader.ReadFramedMessage | internal/mcp/server.go:422-454 | the framed reader returns what ReadFramed specifies |
| Wire.Reader.NextMessage | internal/mcp/server.go:372-382 | returns what ReadMessage specifies and moves to its end |
| Wire.Writer.constructor | internal/mcp/server.go:50 | a writer starts with empty output |
| Wire.Writer.WriteFramedMessage | internal/mcp/server.go:340-353 | appends the frame of the payload |
| Wire.Writer.WriteMessage | internal/mcp/server.go:355-370 | appends the payload in the requested mode |
| Server.ErrorResponse | internal/mcp/server.go:317-327 | JSON-RPC 2.0 with the given id, no result, and the error code, message and data |
| Server.AnsweredVersion | internal/mcp/server.go:134-154 | never blank; the requested version when one is given (otherwise 2024-11-05) |
| Server.AnswerReplies | internal/mcp/server.go:123-176 | a reply is sent exactly when the method is not notifications/initialized and an id is present, and it carries that id |
| Server.AnswerMethodNotFound | internal/mcp/server.go:170-175 | an RPC error happens exactly for an unknown method with an id, and it is -32601 "method not found" with the method as data |
| Server.AnswerInitialize | internal/mcp/server.go:134-154 | initialize answers with the requested protocol version, or 2024-11-05 when that is blank |
| Server.AnswerToolCall | internal/mcp/server.go:160-169 | a tool call never yields an RPC error; a failed one is unsuccessful with the trimmed message or "tool call failed" |
| Server.ToolFailureClassified | internal/mcp/server.go:160-169 | an isError result is unsuccessful and its text is the message's |
| Server.ToolFailureFields | internal/mcp/server.go:164-166 | the failure result has isError true and the message as text content |
| Server.FirstTextOf | internal/mcp/server.go:226-248 | the first text of one content item is the trimmed text, or "tool call failed" when blank |
| Server.ErrorTextMeansFailure | internal/mcp/server.go:211-248 | error text implies failure, and a failure without an RPC error has error text |
| Server.ErrorResponseClassified | internal/mcp/server.go:211-248 | an RPC error response is unsuccessful, with the trimmed message as its text |
| Server.ToolSuccessClassified | internal/mcp/server.go:305-315 | a tool success result is successful with no error text |
| Server.ToolNameRecorded | internal/mcp/server.go:198-209 | a tool name is recorded only for tools/call with params, and then it is the decoded name |
| Server.LogRecordMethod | internal/mcp/server.go:178-196 | the log row's method is never empty and is the trimmed method when given; error text implies failure |
| Server.ParseErrorClassified | internal/mcp/server.go:67-82 | a parse error is logged as unsuccessful with text "parse error" |
| Server.ParseErrorTrimmed | internal/mcp/server.go:73-78 | the logged parse-error text is already trimmed |
| Server.RpcErrorText | internal/mcp/server.go:226-231 | with an RPC error the text is its trimmed message and the response is unsuccessful |
| Server.ParseErrorReply | internal/mcp/server.go:67-72 | the parse-error reply has a null id and code -32700 |
| Server.Inc | internal/mcp/server.go:124 | the 64-bit counter increment, wrapping to 0 |
| Server.Advance | internal/mcp/server.go:124 | k increments keep the counter in range |
| Server.AdvanceAdds | internal/mcp/server.go:124 | k increments add k modulo 2^64 |
| Server.Handled | internal/mcp/server.go:84-92 | no more handled requests than messages |
| Server.IncomingStep | internal/mcp/server.go:59-65 | a read message is the first of the stream and the rest follows it |
| Server.IncomingAdvance | internal/mcp/server.go:59-65 | the messages seen so far and the rest make up the stream |
| Server.IncomingEnd | internal/mcp/server.go:59-65 | a read failure ends the stream with that error |
| Server.IncomingOfBlank | internal/mcp/server.go:59-65 | only white space left ends the stream at end of input |
| Server.TranscriptSnoc | internal/mcp/server.go:84-92 | each exchange appends its output |
| Server.RepliesFitSnoc | internal/mcp/server.go:84-92 | each reply fits its request |
| Server.HandledSnoc | internal/mcp/server.go:67-84 | a message counts as handled exactly when it decodes |
| Server.AdvanceHandled | internal/mcp/server.go:124 | the counter after each message is the start plus the handled count |
| Server.DecodeId | internal/mcp/server.go:329-338 | a given id is echoed as its decoded value; a missing id is null |
| Server.ToolSuccess | internal/mcp/server.go:305-315 | the result has isError false, the value as structured content, and its text as content |
| Server.Answer | internal/mcp/server.go:123-176 | a sent answer is JSON-RPC 2.0 with the request's id; an RPC error is only ever method-not-found, and it is sent |
| Server.ResponseSuccessful | internal/mcp/server.go:211-224 | a successful response has no RPC error; one with no error and no object result is successful |
| Server.ResponseErrorText | internal/mcp/server.go:226-248 | no text for a successful response; the trimmed message for an RPC error |
| Server.ToolNameFromParams | internal/mcp/server.go:198-209 | a tool name is found only for tools/call with params that decode |
| Server.LogRecord | internal/mcp/server.go:178-196 | the method is never empty; success and error text are those of the response |
| Server.Reply | internal/mcp/server.go:67-92 | the reply fits its payload: a framed parse error when it does not decode, otherwise sent exactly when handle sends it, with the request's id |
| Server.Logged | internal/mcp/server.go:67-92 | a payload that does not decode is logged as "parse_error", unsuccessful, with text "parse error" |
| Server.LogOf | internal/mcp/server.go:47-94 | one log row per message |
| Server.Failures | internal/mcp/server.go:160-167 | no more failed tool calls than handled requests |
| Server.RepliesFitOfAre | internal/mcp/server.go:47-94 | replies that are the server's replies fit their messages |
| Server.RepliesAreSnoc | internal/mcp/server.go:84-92 | each exchange appends its reply |
| Server.LogOfSnoc | internal/mcp/server.go:67-86 | each exchange appends its log row |
| Server.LogAdvance | internal/mcp/server.go:178-181 | with a sink the log grows by the exchange's row, without one it stays as it was |
| Server.AdvanceFailures | internal/mcp/server.go:160-163 | the error counter after each message is the start plus the failed tool calls |
| Server.TableStepsSnoc | internal/mcp/server.go:84-92 | each exchange adds its step to the tables |
| Server.Server.constructor | internal/mcp/server.go:42-44 | a new server has zero counters and an empty log |
| Server.Server.Snapshot | internal/mcp/server.go:457-463 | the snapshot is the two counters, both in range |
| Server.Server.HandleToolCall | internal/mcp/server.go:250-303 | each tool decodes its arguments and calls its service method with the effect that method specifies; a decode failure or unknown tool is an error and changes nothing |
| Server.Server.Handle | internal/mcp/server.go:123-176 | requests goes up by one (wrapping); the answer is the dispatch table; errors goes up by one exactly when a tools/call fails; other methods leave the table alone |
| Server.Server.RecordRequest | internal/mcp/server.go:178-196 | with a sink, one log row is appended; counters are unchanged |
| Server.Server.Exchange | internal/mcp/server.go:67-92 | one message: the reply is Server.Reply of the payload and the tool call's outcome, written in the request's mode (framed for a parse error); the log gains exactly Server.Logged of that message when a sink is attached; requests counts it when it decodes; errors counts a failed tools/call; the table changes as Server.TableStep says |
| Server.Server.Round | internal/mcp/server.go:59-92 | one round of the loop: with the history so far, the replies, transcript, log, counters and tables gain exactly this message's part |
| Server.Server.Serve | internal/mcp/server.go:47-94 | the loop reads the whole stream; success exactly at end of input, otherwise the read error; every reply is Server.Reply of its message and fits it; the output is the transcript of replies; the log gains Server.LogOf the messages; requests advance by the handled count and errors by Server.Failures; the tables between messages follow Server.TableSteps from the old table to the new one |
| Bootstrap.ServeCommand | internal/bootstrap/bootstrap.go:120-122 | never blank; the given command when not blank (otherwise "memory-mcp serve") |
| Bootstrap.BuildCommands | internal/bootstrap/bootstrap.go:113-154 | a success is the command list; Bootstrap.BuildCommandsErrors states exactly when it fails |
| Bootstrap.Defaults | internal/bootstrap/bootstrap.go:56-67 | scope, name and serve command are set, and at least one CLI is selected |
| Bootstrap.Plan | internal/bootstrap/bootstrap.go:52-75 | a plan is the non-empty command list of the defaulted options |
| Bootstrap.FieldsOfNotBlank | internal/bootstrap/bootstrap.go:124-127 | a non-blank serve command has at least one field |
| Bootstrap.BuildCommandsErrors | internal/bootstrap/bootstrap.go:114-119 | fails exactly for a scope other than user/project or a blank config path, in that order |
| Bootstrap.ServeFieldsOfServeCommand | internal/bootstrap/bootstrap.go:120-127 | the serve fields are the fields of the (defaulted) serve command |
| Bootstrap.DefaultServeFieldsOk | internal/bootstrap/bootstrap.go:120-122 | the default serve command splits into "memory-mcp", "serve" |
| Bootstrap.FieldsOfTwoWords | internal/bootstrap/bootstrap.go:124 | two words separated by a space split into those two |
| Bootstrap.DefaultMemoryCmd | internal/bootstrap/bootstrap.go:120-128 | with a blank serve command the server command is memory-mcp serve --config path |
| Bootstrap.CommandsAll | internal/bootstrap/bootstrap_test.go:13-37 | with All and all three CLIs present, six commands: codex, codex, claude, claude, gemini, gemini, each a remove then an add |
| Bootstrap.CommandsBound | internal/bootstrap/bootstrap.go:131-152 | never more than six commands |
| Bootstrap.PairPaired | internal/bootstrap/bootstrap.go:131-152 | each CLI contributes nothing or a remove followed by an add |
| Bootstrap.PairedAppend | internal/bootstrap/bootstrap.go:131-152 | such pairs concatenate |
| Bootstrap.CommandsPairs | internal/bootstrap/bootstrap.go:131-152 | the whole list is remove/add pairs |
| Bootstrap.CommandsSelect | internal/bootstrap/bootstrap.go:131-153 | a CLI has commands exactly when it is selected and installed, and then its remove command comes right before its add command |
| Bootstrap.Commands | internal/bootstrap/bootstrap.go:128-154 | at most six commands, in remove-add pairs; none exactly when no selected CLI is installed |
| Bootstrap.CommandsEmpty | internal/bootstrap/bootstrap.go:69-75 | the list is empty exactly when no selected CLI is installed |
| Bootstrap.PairAddsEndWith | internal/bootstrap/bootstrap.go:137-150 | each add command ends with the server command |
| Bootstrap.AddsEndWithAppend | internal/bootstrap/bootstrap.go:131-152 | that property concatenates |
| Bootstrap.AddCommandsEndWithServeCmd | internal/bootstrap/bootstrap.go:128-153 | every add command ends with the serve fields, "--config" and the config path; just before them the codex and claude adds have "--" and the gemini add has the server name |
| Bootstrap.PlanWithoutFlags | internal/bootstrap/bootstrap.go:56-67 | with no flags, empty scope and all CLIs present, the plan has six commands |
| Bootstrap.PlanNoCommands | internal/bootstrap/bootstrap.go:69-75 | the plan fails with "no commands" exactly when the defaulted options yield none |
| Bootstrap.DefaultsKeepSetFields | internal/bootstrap/bootstrap.go:56-67 | scope "user" and name "shared-memory" only when empty, All only when no flag, other fields kept; defaulting twice is defaulting once |
| Admin.KeepLast | internal/admin/tui.go:201-204 | the newest n lines, or all when there are no more |
| Admin.KeepLastAppend | internal/admin/tui.go:193-206 | trimming then appending and trimming equals appending to the untrimmed log and trimming |
| Admin.KeepLastNewest | internal/admin/tui.go:193-206 | the newest entry is the last one kept |
| Admin.RefreshLine | internal/admin/tui.go:85-95 | the line starts with "refresh " and is longer than it; on an error it ends with the error text |
| Admin.RefreshLineNotBlank | internal/admin/tui.go:79-96 | every refresh line passes the blank guard |
| Admin.FixedLinesNotBlank | internal/admin/tui.go:67-72 | the start and quit lines pass the blank guard |
| Admin.Dashboard.constructor | internal/admin/tui.go:47-59 | limits 10, 8 and 8, and the start-up line is the only log entry |
| Admin.Dashboard.AppendLog | internal/admin/tui.go:193-206 | a blank line changes nothing; otherwise maxLogs defaults to 10 when not positive, the entry is appended and the log is its newest maxLogs entries; nothing shown changes |
| Admin.Dashboard.Push | internal/admin/tui.go:197-205 | appends an entry and keeps the newest maxLogs |
| Admin.Dashboard.Update | internal/admin/tui.go:65-99 | quit keys log and quit; window size is stored; a tick stores the time and fetches; a refresh sets lastErr, replaces stats and rows only without error, and logs its line |
| Admin.Dashboard.ApplyRefresh | internal/admin/tui.go:79-96 | lastErr is always set; stats, request rows and memory rows are replaced only when there is no error; the refresh line is logged |
| Admin.TruncateText | internal/admin/tui.go:292-302 | at most limit characters of the trimmed text: unchanged when it fits, otherwise exactly limit, with "..." when limit is above 3 |
| Admin.TruncateTextIdempotent | internal/admin/tui.go:292-302 | truncating twice is truncating once |
| Admin.TruncatedIsTrimmed | internal/admin/tui.go:292-302 | a truncated text is already trimmed |
| Admin.CompactWhitespace | internal/admin/tui.go:304-306 | no leading, trailing or repeated spaces, and the same words as the input |
| Admin.JoinWords | internal/admin/tui.go:304-306 | words joined by single spaces are compact and split back into the words |
| Admin.CompactWhitespaceIdempotent | internal/admin/tui.go:304-306 | compacting twice is compacting once |
| Admin.StatusLabel | internal/admin/tui.go:243-246 | "err" exactly when unsuccessful, "ok" exactly when successful |
| Admin.ScopeLabel | internal/admin/tui.go:268-271 | "S" exactly for short scope, "L" otherwise |

## Left out

- SQLite itself is not modelled: `OpenSQLite`'s connection setup, `init`, `hasFTSTable` and the row scanners. The table is an in-memory sequence, and `splitSQLStatements` is modelled as a pure helper.
- FTS5 is an oracle (`Store.FtsSearch`). The MATCH query, the bm25 ranking and the `1/(1+|bm25|)` mapping at internal/store/sqlite.go:249 are not modelled.
- Timestamps in the table are compared as integers. The code compares RFC3339Nano text in SQL, which agrees with integer order only for times formatted in the same zone and width.
- Store.SearchLike: rows with equal `created_at` come back in table order, because the sort is stable. SQLite leaves the order of such rows unspecified, so the model fixes one of the orders it may return.
- `LIKE` is plain substring matching, case-insensitive for ASCII letters, and `%` or `_` inside a term is matched literally rather than as a wildcard.
- Only the unique-id constraint of `InsertMemory` is modelled as a database error. Other errors are not (disk, locking, JSON marshalling of metadata).
- Scoring uses reals rather than float64. `math.Exp` in `recencyScore` is the parameter `decay`, so rounding is not modelled.
- Memory.Normalize: its contract states only the length bound. The pack lemmas take the dedup key as a parameter, so they hold for any key function, including `normalize`.
- Memory.WriteScope: its contract states only that the scope is never empty; the full trimming and lower-casing is in `NormalizeScope`, which `PrepareWrite`'s contract uses.
- Memory.Truncate and Admin.TruncateText: `requires limit >= 0`, since a negative limit makes the Go slice expression panic.
- JSON encoding and decoding are the oracle record `Server.Codec`. So are `decodeID`'s fall-back to the raw text and `toolSuccess`'s indented marshalling; the model only states that a decoded id is echoed back.
- The `%q` quoting is approximated by wrapping the text in double quotes without escaping. That covers the unknown-tool message (`Server.CallMeets`) and the namespace-mismatch and invalid-scope messages of `Memory.Message` (internal/memory/service.go:48, 240).
- Write and flush errors of `bufio.Writer` are not modelled, nor `bufio.Reader`'s buffering or its size limits. A `Content-Length` larger than the remaining input, but one the runtime can allocate, gives end of input when no body byte is left and an unexpected-EOF error otherwise, as `io.ReadFull` does.
- Wire.ReadFramed and Wire.Reader.ReadFramedMessage: the body buffer `make([]byte, contentLength)` (internal/mcp/server.go:449) is allocated before any body byte is read. The model does not capture what happens when the announced length cannot be allocated. A length above the runtime's allocation limit (for example `Content-Length: 1000000000000000`) makes `make` panic, and nothing recovers it, so the process stops. A length of a few gigabytes can exhaust memory. In the model both cases give the same end-of-input or unexpected-EOF failure as any other short body.
- `unicode.IsLetter`, `unicode.IsDigit` and `strings.ToLower` are ASCII only; white space follows `unicode.IsSpace` in full. On the byte-level transport, `bytes.TrimSpace` drops ASCII white space only, and multi-byte UTF-8 spaces are not decoded. Strings are sequences of runes, so rune counts are lengths.
- Concurrency is left out. That covers the context cancellation in `Serve`, the atomic counters (modelled as plain 64-bit wrapping fields) and the background ttl worker of internal/ttl/worker.go.
- cmd/memory-mcp/main.go is not part of this model (command-line parsing and signals). Nor are `config.Load`, `EnsurePaths`, or the request-log sink's database writes; the sink is a sequence, and request durations and timestamps are left out.
- `Bootstrap`'s audit log, its running of the commands, and its ignoring of remove-command failures are I/O. Only its option defaulting and `BuildCommands` are modelled.
- The dashboard's `View`, `renderPane`, `joinColumns`, `renderStats`, `formatTime`, `formatDuration`, `formatClock` and `fetchDashboardCmd` are rendering and I/O. Also out: the `RecentMCPRequestLogs` and `RecentMemories` queries, and the `method:tool` text and error suffix of `formatRequestPane`. Log stamps and the duration text are parameters.
- Admin.Dashboard.constructor, Admin.Dashboard.Update and Admin.Dashboard.ApplyRefresh append their fixed or refresh line directly, without the blank-line guard. That is sound because those lines are never blank (Admin.FixedLinesNotBlank, Admin.RefreshLineNotBlank).
- internal/embeddings/provider.go declares an interface and has no behaviour.

## Findings

| source | as written | input that shows it | evidently intended | confidence | as-written member | corrected member |
|---|---|---|---|---|---|---|
| internal/memory/service.go:72 | `now.Add(time.Duration(ttlSeconds) * time.Second)` multiplies in int64 nanoseconds, which wraps around for ttl_seconds above about 9.2e9 | a short-term write with ttl_seconds = 10000000000 gets an expires_at before now, so the next expiry pass deletes it at once | a positive ttl yields an expiry after the write time | not executed | Memory.ExpiryOverflowCounterexample | Memory.Expiry |

`Memory.ExpiryAsWritten` models the wrapping product through `Types.Wrap64`. `Memory.ExpiryAgreesInRange` shows that it agrees with `Memory.Expiry` whenever the product fits in int64. The rest of the model uses `Memory.Expiry`, and `Memory.WriteWellFormed` proves that the expiry of a short-term write is after now.
