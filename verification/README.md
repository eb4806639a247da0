# Verified model of four stateful components

The project models four parts of the Apache Answer server and proves what holds of every
run of them.

* **Plugin key-value storage** (`plugin/kv_storage.go`): a table of (plugin, group, key)
  rows behind a string cache that all plugins share. `KVTable` is the table, `CacheKey` the
  rendered cache key, `KVSemantics` says what each call does to table and cache, `CallLaws`
  what that means for its answer and for every row and entry, and
  `KVOperator` is the operator as objects, each method tied to the function of
  `KVSemantics`. On these, `Staleness` and `Coherence` say when a cached value may differ from
  its row, `Transactions` what nested transactions leave in the table and in the cache,
  `History` which calls explain a stale entry, `Pagination` what the pages of a group hold, and `Concurrency` what interleaved calls
  may observe.
* **The AI conversation loop** (`internal/controller/ai_controller.go`): `ToolCalls`
  reassembles tool calls from a stream of fragments, `Conversation` is the loop, and
  `ConversationLaws` holds the laws of its two histories and of the client's stream.
* **The random password** (`internal/cli/reset_password.go`): `Shuffle` and `Password`.
* **The plugin registry** (`plugin/plugin.go`, `plugin/captcha.go`, `plugin/cdn.go`):
  `Registry`; and the plugin descriptions of `internal/cli/build.go`: `PluginSpec`.

What the outside world decides is left open. A call carries the outcomes of its statements
and cache accesses; a transaction callback is the tree of calls it makes plus whether it
returned nil; cache entries disappear at any time; the model's streams, the tools' outcomes and
the raw random draws are inputs that may be anything; the order of map iteration is arbitrary. Roles and finish reasons are data types with one
constructor for each string that the code distinguishes and one for all others.

## Results

* The cache agrees with the table after every run of reads, writes and point deletes iff no
  namespace's key header starts another's; slugs and groups without a colon meet that, while
  keeping `:key:` out of groups does not.
* Over all runs, transactions and failures included, a stale value is one that a read found in
  the row and cached, and that nothing cleared since, and one of three things holds: that read was
  made in a failed transaction, and the value was that transaction's own write; or a write of
  another value was kept after it, which did not clean the entry, as the TTL was negative or the
  cache delete failed; or a delete was kept after it, which took the row while it held that value
  and named another entry or did not clean this one, and the row is absent. Reads, writes and
  deletes each have an exact rule for what they leave stale.
* A failing transaction leaves the cache true from every coherent start iff its callback reads
  back none of the rows it set, counting nested calls. This holds whichever statements, cache
  reads and cache writes fail and whatever expires; it asks only that cache deletes work, the
  TTL is not made negative inside, and reads are in prefix-free namespaces.
* From an empty cache every run of point calls and of transactions that commit point calls or fail
  safely in that sense ends with a true cache, as long as no plugin switches the sign of its TTL,
  cache deletes work, and reads are in prefix-free namespaces.
* Interleaved reads return only values their rows held. Under any discipline that decides
  which calls start and when, but cannot keep a started call from completing, every cached value
  and every answer about a key are true iff no read ever holds a value to be cached while a
  change, past its clean, is about to leave the row without that value. Moreover an entry is
  stale only if its value was read before the row's last change, and, where no value ever
  returns to the row, exactly then.
* Over every interleaving of registrations, status changes and loads of a saved status, at most
  one captcha (and at most one CDN) is enabled throughout iff none is registered while its slug
  and another of the kind are enabled, and no load enables one of the kind and leaves another
  enabled. A slug may be enabled before it is registered, and a saved status is loaded as it is.
* Some plausible claims are false of the code, and each has a lemma with a failing input:
  `KeyMarkerInGroupIsNotTheTest`, `SwitchingTTLGoesStale`, `BypassingOperatorTxGoesStale`
  (a transaction of an operator that bypasses the cache fills it all the same),
  `OverlapGoesStale`, `LateRegistrationBreaksExclusive`, `LoadBreaksExclusive`. Their exact conditions are `CollisionIff`,
  `SetKeepsCoherenceIff`, `DelKeepsCoherenceIff`, `TrueIffClashFree` and `ExclusiveThroughoutIff`.
* The comment on `Tx` says that a failing function is rolled back; the code commits or
  discards only at the outermost call, so the writes of a failed nested call stand when its
  caller ignores the error (`NestedOutcomeIsIgnored`).
* All results on stale entries and on interleaved calls are about addresses in prefix-free
  namespaces; the rows below do not repeat that.
* The passwords that come out are exactly the texts of the requested length over the charset
  with a character of each class.

## Model

| member | source | states |
|---|---|---|
| KVTable.LookupUpserted | plugin/kv_storage.go:192-206 | update-or-insert gives the address its value and leaves every other address as it was |
| KVTable.LookupRemoved | plugin/kv_storage.go:224-235 | a delete empties exactly the addresses that its group and key conditions match |
| KVTable.UpsertedRows | plugin/kv_storage.go:192-206 | an update changes values in place and nothing else; only a missing row is inserted, last and under the next id |
| KVTable.UpsertedValid | plugin/kv_storage.go:183-206 | writes keep ids increasing and each (plugin, group, key) on one row |
| CallLaws.EntryName | plugin/kv_storage.go:98-100 | the entry of an address is `plugin_kv_storage:`, slug, `:group:`, group, `:key:` and key |
| CacheKey.CollisionIff | plugin/kv_storage.go:98-100 | two namespaces have keys sharing a cache entry iff one header is a prefix of the other |
| CacheKey.RenderInjective | plugin/kv_storage.go:98-100 | in prefix-free namespaces the rendered key determines slug, group and key, for arbitrary keys |
| CacheKey.NoColonPrefixFree | plugin/kv_storage.go:98-100 | slugs and groups without a colon are prefix-free, so operators never share an entry |
| CacheKey.KeyMarkerInGroupIsNotTheTest | plugin/kv_storage.go:98-100 | groups without `:key:` still collide: ("a", "key:x") and ("a:key", "x") |
| KVOperator.KVOperator.Get | plugin/kv_storage.go:84-171 | result and whole new state of a read, including empty key, cache hit, failed statement, missing row and cache fill; a negative TTL or a failing cache reads as a miss and fills nothing, and the operator's own session is reused |
| KVOperator.KVOperator.Set | plugin/kv_storage.go:127-208 | result and whole new state of a write: clean first, unless the TTL is negative or the cache fails, then update or insert, with either statement failing |
| KVOperator.KVOperator.Del | plugin/kv_storage.go:127-236 | result and whole new state of the three forms of delete, each cleaning one entry first unless the TTL is negative or the cache fails |
| CallLaws.CachedReadAnswers | plugin/kv_storage.go:144-146 | with a non-negative TTL and an answering cache, a cached value is returned whatever the statements do |
| CallLaws.UncachedReadAnswers | plugin/kv_storage.go:148-170 | any other read returns the row's value, or that there is none, or the failed statement, each iff it is so |
| CallLaws.ReadEffect | plugin/kv_storage.go:139-171 | a read changes no row, adds to the cache at most its answer under its own entry, and does so if it can |
| CallLaws.WriteAnswers | plugin/kv_storage.go:175-208 | a write succeeds iff its statements do; then its address holds the value and all others what they held; on failure no row changes; its entry alone is cleaned |
| CallLaws.DeleteAnswers | plugin/kv_storage.go:214-236 | a delete succeeds iff its statement does; then exactly the plugin's rows with the given group and key are gone; on failure no row changes; the one entry it names is cleaned |
| CallLaws.EmptyKeysRefused | plugin/kv_storage.go:140-217 | an empty key, or for a delete neither key nor group, is refused with its error and changes nothing |
| KVOperator.KVOperator.GetByGroup | plugin/kv_storage.go:240-270 | the page as a map, or the error; nothing but a session is touched |
| KVOperator.KVOperator.Tx | plugin/kv_storage.go:275-315 | the whole state after a transaction on real session objects equals the specification; nested, it succeeds iff its function does; outermost, iff begin, function and commit do, and then it commits once, and otherwise never and leaves the rows as they were |
| KVSemantics.RunValid | plugin/kv_storage.go:173-236 | every run of calls, transactions included, keeps the table valid |
| History.StaleEntryHasCause | plugin/kv_storage.go:98-315 | over all runs a stale value was found in the row and cached by a read, with no clear since; and it was a standing write of that read's own failed transaction, or a write of another value was kept since without cleaning, or a delete was kept since without cleaning that took the row holding it, and the row is absent |
| Coherence.StaleAfterGet | plugin/kv_storage.go:139-171 | exactly which entries are stale after a read, addresses that share the filled entry included |
| Coherence.StaleAfterDel | plugin/kv_storage.go:214-236 | exactly which entries are stale after a delete: only one entry is cleaned, whatever the filter matches |
| Coherence.StaleAfterSet | plugin/kv_storage.go:175-208 | exactly which entries are stale after a write |
| Coherence.DelKeepsCoherenceIff | plugin/kv_storage.go:214-236 | a delete keeps a true cache true iff its statement fails or it matches no cached address but one that it names and cleans, for any TTL |
| Coherence.SetKeepsCoherenceIff | plugin/kv_storage.go:175-208 | a write keeps a true cache true iff it cleans, its statements fail, or the cached value is absent or equal |
| Coherence.ReadIsTrueIff | plugin/kv_storage.go:139-171 | an undisturbed read answers as the table does iff its entry is not stale or caching is off |
| Coherence.CoherentReads | plugin/kv_storage.go:139-171 | in a coherent state every read answers as the table does or reports the failed statement |
| Coherence.PointRunsCoherent | plugin/kv_storage.go:102-236 | from an empty cache, after every run of point calls with working cache deletes, arbitrary expiry and all other failures, by plugins that do not switch the sign of their TTL, every cached value is its row's |
| Coherence.CoherenceIffPrefixFree | plugin/kv_storage.go:98-236 | over a set of namespaces point runs keep the cache true iff no header starts another |
| Coherence.NoColonRunsCoherent | plugin/kv_storage.go:98-236 | the same for all slugs and groups without a colon |
| Coherence.SwitchingTTLGoesStale | plugin/kv_storage.go:127-130 | a write under a negative TTL leaves the entry of an earlier read behind |
| Coherence.WideDeleteStaleness | plugin/kv_storage.go:214-236 | in such runs with group-only and key-only deletes as well, a stale entry belongs to an absent row that such a delete removed while it held the cached value, not written or point-deleted since |
| Transactions.OuterTxIsAllOrNothing | plugin/kv_storage.go:275-315 | an outermost transaction opens one session, commits at most once, and leaves all of its calls' writes or none |
| Transactions.InnerBody | plugin/kv_storage.go:275-315 | nested calls run their writes in order, open no session and commit nothing |
| Transactions.NestedOutcomeIsIgnored | plugin/kv_storage.go:275-315 | however nested transactions end, the outermost one leaves the same table, cache and counts |
| Transactions.CommittedTxCoherent | plugin/kv_storage.go:275-315 | from a true cache, after a committed transaction of point calls whose cache deletes work and whose TTL is not made negative, every cached value is the new row's, whatever the outer TTL |
| Transactions.FailedTxStaleness | plugin/kv_storage.go:275-315 | from a true cache, after a failed one a stale entry belongs to an address that the callback set and later read |
| Transactions.MarkIsReadBack | plugin/kv_storage.go:139-236 | where cache deletes work and the TTL stays non-negative, the marks of a callback are exactly patterns of its calls: a row deleted and not inserted since, a write that stands, a read of a standing write with no drop of the entry after it |
| Transactions.FailedTxSafeIff | plugin/kv_storage.go:275-315 | where cache deletes work and the TTL stays non-negative, whatever else fails or expires, a callback can fail from every coherent state without leaving a stale entry iff it reads back nothing it set |
| Transactions.RunsCoherent | plugin/kv_storage.go:102-315 | from an empty cache, after every run with working cache deletes of point calls by plugins that do not switch the sign of their TTL, and of transactions by those that do not bypass the cache, which commit point calls or fail without reading back what they set, every cached value is its row's |
| Transactions.BypassingOperatorTxGoesStale | plugin/kv_storage.go:297-301 | the transaction's operator has TTL 0, so an operator with a negative TTL caches in it and then goes stale |
| Pagination.GroupRowsAre | plugin/kv_storage.go:255-258 | the rows paged are exactly the plugin's rows of the group, in id order |
| Pagination.PageDefaults | plugin/kv_storage.go:245-250 | a page below 1 is page 1, and a size below 1 is size 10 |
| Pagination.PageHolds | plugin/kv_storage.go:255-267 | a page holds exactly the keys of the group's rows at indices from (page - 1) * pageSize up to page * pageSize, with their table values |
| Pagination.PagesDisjoint | plugin/kv_storage.go:255-259 | different pages share no key |
| Pagination.PagesCoverGroup | plugin/kv_storage.go:240-270 | for every page size a key is on some page iff its row exists |
| Pagination.PageCount | plugin/kv_storage.go:255-267 | a page has pageSize keys, or as many as are left after (page - 1) * pageSize of the group's rows |
| Pagination.PagesAgreeWithReads | plugin/kv_storage.go:139-270 | in a coherent state reads agree with the union of the pages on every non-empty key |
| Concurrency.ReadsReturnHeldValues | plugin/kv_storage.go:139-236 | in every interleaving a read returns only a value that its row held before |
| Concurrency.ReadsAreCurrent | plugin/kv_storage.go:139-236 | in an execution without a clash on a key its entry is its row's value and every answer is true when given |
| Concurrency.ClashGoesStale | plugin/kv_storage.go:153-206 | from every clash, the change and the read completing give a false answer and a stale entry |
| Concurrency.TrueIffClashFree | plugin/kv_storage.go:139-236 | under every discipline that lets started calls complete, entries are always true iff no clash is reached, and answers likewise |
| Concurrency.LockIsEnough | plugin/kv_storage.go:139-236 | one call at a time on a key, others interleaving freely, is such a discipline and makes its entries and answers true |
| Concurrency.StaleIffOutdated | plugin/kv_storage.go:153-206 | a stale entry was read before the row's last change; exactly so where no value returns to the row |
| Concurrency.OverlapGoesStale | plugin/kv_storage.go:153-206 | an overlap that ends with every call finished and a stale entry |
| Concurrency.ReadStepsAreTheCall | plugin/kv_storage.go:139-171 | the steps of a read, run back to back, do what the call does |
| Concurrency.ReadAnswersAreTheCall | plugin/kv_storage.go:139-171 | and they answer what the call returns |
| Concurrency.ChangeStepsAreTheCall | plugin/kv_storage.go:175-236 | the steps of a write or point delete, run back to back, do what the call does |
| ToolCalls.AssembledCall | internal/controller/ai_controller.go:502-523 | the call at an index has its first fragment's ID and type, all its arguments joined, and its last non-empty name |
| ToolCalls.LastNameIs | internal/controller/ai_controller.go:518-520 | the name is that of the last fragment that has one |
| ToolCalls.AllArgumentsNext | internal/controller/ai_controller.go:515-517 | arguments are joined in order |
| ToolCalls.InterleavingIrrelevant | internal/controller/ai_controller.go:502-523 | streams that agree call by call give the same calls |
| ToolCalls.Values | internal/controller/ai_controller.go:549-551 | map iteration yields every call once, in some order |
| Conversation.CollectFragments | internal/controller/ai_controller.go:502-523 | the loop over one chunk's fragments assembles them after those before |
| Conversation.ReadStream | internal/controller/ai_controller.go:489-565 | the calls, text, finish reason and frames of the chunks up to the first finish |
| Conversation.ProcessAIStream | internal/controller/ai_controller.go:471-584 | calls, new history, reply, frames and request of one stream, on every exit |
| Conversation.ExecuteToolCalls | internal/controller/ai_controller.go:587-645 | invalid calls are dropped and each other call is used once and answered, in order, whether it parses, fails or succeeds |
| Conversation.AnswerCall | internal/controller/ai_controller.go:613-641 | the answer carries the tool's text, or the parse error or tool error behind its prefix, under the call's ID |
| Conversation.ConversationContext.GetOpenAIMessages | internal/controller/ai_controller.go:165-174 | the saved messages with role and content, in order |
| Conversation.HandleAIConversation | internal/controller/ai_controller.go:432-468 | saved history, client stream and requests at the end are those of a run of at most ten rounds, in which requests and tool uses come out as the model and the tools let them |
| ConversationLaws.ConsumedIs | internal/controller/ai_controller.go:489-565 | a stream is read up to and including its first chunk with a finish reason, or to its end |
| ConversationLaws.ChunkAdds | internal/controller/ai_controller.go:502-545 | each chunk read adds all its fragments and all its text, and sends a frame iff it has text |
| ConversationLaws.FailedStreamAdds | internal/controller/ai_controller.go:475-480 | a stream that cannot be created sends one error frame and adds nothing |
| ConversationLaws.DeliveredStreamAdds | internal/controller/ai_controller.go:449-584 | exactly which messages a delivered stream adds to the saved history and to the model's |
| ConversationLaws.AnswersSay | internal/controller/ai_controller.go:613-641 | the i-th answer of a round carries what came of the i-th call |
| ConversationLaws.NextRequestIff | internal/controller/ai_controller.go:432-468 | a request is followed by another iff it was not the tenth, its stream carried tool calls, and it ended with `tool_calls` or without a reason |
| ConversationLaws.RequestsExtend | internal/controller/ai_controller.go:432-468 | at most ten requests, each extending the one before, and every one but the last answered by tool calls |
| ConversationLaws.RequestsFollowProtocol | internal/controller/ai_controller.go:587-645 | in each request, after the first history, tool calls are followed at once by one answer each, in order and by ID, and every tool message is such an answer |
| ConversationLaws.AskedCallsAreAssembled | internal/controller/ai_controller.go:576-612 | a round asks for exactly the assembled calls that have an ID and a name, each once |
| ConversationLaws.StreamedIsSaved | internal/controller/ai_controller.go:449-583 | over a whole run the text sent to the client is the text added to the saved history |
| ConversationLaws.ModelTextsAmongSaved | internal/controller/ai_controller.go:547-583 | the model's plain texts are a subsequence of the saved ones, and the same iff no round ending in `tool_calls` sent text |
| Shuffle.AfterAll | internal/cli/reset_password.go:250-256 | the swaps of the loop, one after the other, are the recursive shuffle |
| Shuffle.AfterDrawn | internal/cli/reset_password.go:250-256 | each draw swaps the next position from the end with the drawn one |
| Shuffle.ShuffledRearranges | internal/cli/reset_password.go:250-256 | a shuffle keeps every element as often as it was |
| Shuffle.DrawsArePermutations | internal/cli/reset_password.go:250-256 | each permutation of n positions is made by exactly one draw sequence, and nothing else is |
| Shuffle.ShuffleIsPositional | internal/cli/reset_password.go:250-256 | any buffer is moved as its positions are |
| Password.RandomSource.Int | internal/cli/reset_password.go:234-251 | a draw below a bound is the next raw one modulo the bound, and fails iff that fails |
| Password.GenerateRandomPassword | internal/cli/reset_password.go:227-259 | it fails iff the length is too short or a raw draw fails; otherwise the result is the shuffle of the filled buffer, each pick modulo the size of its position's source and each swap modulo the positions left |
| Password.MadeIsCovered | internal/cli/reset_password.go:227-259 | the password has the length, stays in the charset, covers each class at different positions, and rearranges the filled buffer |
| Password.PasswordIff | internal/cli/reset_password.go:227-259 | for any classes, exactly the covered texts over the charset come out |
| Password.ReturnedIff | internal/cli/reset_password.go:227-259 | some raw draws give a text iff it is covered and over the charset, for any classes |
| Password.DefaultPasswordIff | internal/cli/reset_password.go:48-62 | for the four classes, some raw draws give exactly the texts of letters, digits and special characters with one of each class |
| Registry.Stack.Register | plugin/plugin.go:165-172 | a slug already registered is refused and nothing changes; otherwise the plugin is appended |
| Registry.Registrar.Register | plugin/plugin.go:55-133 | the captcha and CDN stacks stay the registered plugins of their kind, and refuse nothing that the base stack accepts |
| Registry.OfKindUnique | plugin/plugin.go:165-172 | slugs stay unique in each kind's stack |
| Registry.StatusManager.IsEnabled | plugin/plugin.go:200-205 | an unknown plugin is disabled |
| Registry.StatusManager.CoordinatedPlugins | plugin/captcha.go:67-82 | the other enabled slugs of the kind, if the named plugin is an enabled one of it |
| Registry.StatusManager.Enable | plugin/plugin.go:182-198 | the whole new status, the CDN step seeing what the captcha step left |
| Registry.EnableChanges | plugin/plugin.go:182-198 | exactly the named plugin is enabled and exactly its enabled rivals of a shared kind are disabled |
| Registry.DisableChanges | plugin/plugin.go:185-188 | disabling changes the named plugin and no other |
| Registry.SwitchesKeepExclusive | plugin/plugin.go:182-198 | every sequence of changes keeps at most one captcha and at most one CDN enabled |
| Registry.EnableRestoresExclusive | plugin/captcha.go:67-82 | enabling a captcha leaves it the only one, from any status |
| Registry.AppendKeepsAtMostOneIff | plugin/plugin.go:165-172 | one more plugin of a kind keeps the bound iff it is disabled or every enabled one has its slug |
| Registry.ExclusiveThroughoutIff | plugin/plugin.go:165-215 | over every interleaving of registrations, changes and loads, the bound of a kind holds throughout iff none of the kind is registered while its slug and another of the kind are enabled, and no load enables one and leaves another enabled |
| Registry.LateRegistrationBreaksExclusive | plugin/plugin.go:165-172 | any two captchas registered after they were enabled escape the rule |
| Registry.StatusManager.UnmarshalJSON | plugin/plugin.go:212-215 | a saved status replaces the entries of the slugs it names and leaves all others |
| Registry.LoadBreaksExclusive | plugin/plugin.go:212-215 | loading a saved status that enables any two registered captchas escapes the rule |
| Registry.StatusManager.CallCaptcha | plugin/captcha.go:42-57 | the callback runs on exactly the last enabled captcha, and on none if its slug is empty |
| Registry.LastEnabledIs | plugin/captcha.go:42-47 | a pass visits the last enabled plugin in registration order last |
| Registry.TwoPassesAreOneIff | plugin/captcha.go:42-57 | the two passes equal one plain pass iff at most one captcha is enabled and none of them has an empty slug |
| PluginSpec.FormatPlugins | internal/cli/build.go:136-146 | each description is trimmed and cut at its first '=' and then its first '@' |
| PluginSpec.TrimIs | internal/cli/build.go:138 | trimming takes white space away at both ends, until there is none, and nothing else |
| PluginSpec.ParseSays | internal/cli/build.go:138-142 | a parsed description is the name, the version after the first '@' before the first '=', and the path after that, within white space |
| PluginSpec.RoundTripIff | internal/cli/build.go:136-188 | parsing a printed triple gives it back iff no field holds a separator it may not and no white space is outside |
| PluginSpec.PrintParsedIff | internal/cli/build.go:136-188 | printing a parsed text gives the trimmed text iff it has an '@' before its first '=' |

## Left out

- The affected-row count of an update is taken to be that of matched rows; a database that reports changed rows would make the insert run again on an equal value.
- Calls on the outer operator from inside a transaction callback: the callback's calls go to the operator it is given, as the interface intends.
- The concurrent model takes cache deletes to succeed, update-or-insert to be one step, and deletes to name both group and key; transactions and group reads are not interleaved.
- The TTL's length and its jitter: entries disappear at any time, so only the sign of the TTL matters.
- xorm sessions beyond begin, commit and close: closing an uncommitted session discards its writes, and ids used in it are not used again.
- A stream chunk without a choice, or a tool-call fragment without an index, on which the original panics.
- How the first messages of a conversation are built, where the saved history is stored, and what the tools do.
- Registry.StatusManager.CallCaptcha: the callback's own error, which the original returns; it changes neither which plugin is called nor how often.
- The status manager's lock, the text form of a saved status, and loading a malformed one.
- Plugin kinds other than captcha and CDN.
- The retry loop around the password generator and the external password check.
- Running build commands, copying directory trees and merging translation files.
