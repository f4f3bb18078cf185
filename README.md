# SeedAI memory core in Dafny

SeedAI is an assistant ("Aurelia") that keeps what it learns in SQLite
databases and JSON files, and exposes a chat gateway and a web front end.
This project models the deterministic core of that system and proves
properties of the model:

- **Keyed and append-only tables.** `Tables` gives SQLite's REPLACE,
  INSERT OR IGNORE, UPDATE, WHERE, ORDER BY and LIMIT their meaning over
  sequences of rows. `MemoryManager` (memory_manager.py) covers the retry
  policy, all-or-nothing transactions, the keyed and log tables, the
  crawl gate and URL check, and the fallback LIKE search. `AureliaMemory`
  (seedai/aurelia_memory.py) covers the messages, facts ranked by strength,
  identity and unknown words. `SeedaiStorage` (gateway/seedai_storage.py)
  covers the gateway store.
- **Staged learning.** `SeedaiMemory` (seedai_memory.py) covers the
  stage-then-commit lifecycle of the adapter over a MemoryManager database.
- **CORE_MEMORY_UPDATE blocks.** `CoreBlocks` holds the three block
  grammars of the gateway as hand-written matchers. `CoreMemoryHandler`,
  `CoreStore` and `MemoryStore` hold the extract/strip pairs and the
  shallow and deep merges into core.json.
- **Text helpers.** `MemoryBootstrap` covers the system messages and their
  trimming. `Validate` covers truncate, redact_env, collect_files and the
  health predicates. `Grammar` covers the lexicon and sentence rules,
  `Emotion` the mood and tone, and `Reasoner` the turn pipeline.
- **Web front end.** `UseChat` is the chat store, `Sse` the server-sent
  event client and chatStream, and `Api` the HTTP client and model-list
  normalisation.

Stateful objects are classes whose methods are proved against functions
of the old state. The properties of those functions are separate lemmas.

The JSON parser and serialiser, clocks, random choices, urlparse, the HTTP
fetch, the HTML parser, TextDecoder and UTF-8 coding are parameters. The
same goes for the language model and the other collaborators.

Where the program's behaviour surprised, the model states it as written.
For example, `get_recent_beliefs(0)` returns every belief, and a [DONE]
line leaves the SSE retry count as it was. The four defects listed under
"## Findings" are modelled both as written and corrected. The rest of the
model uses the corrected definition.

## Model

| member | source | states |
|---|---|---|
| Tables.Lookup | memory_manager.py:558 | a keyed lookup finds a value exactly when a row has the key, the value is that row's, and with unique keys it is the only one |
| Tables.RemoveKey | memory_manager.py:558 | deleting a key keeps exactly the rows with other keys, keeps keys unique, and changes nothing when the key is absent |
| Tables.ReplaceSpec | memory_manager.py:558 | REPLACE INTO keeps keys unique, makes the key map to the new value, and leaves every other key's value as it was |
| Tables.InsertOrIgnoreSpec | memory_manager.py:552 | INSERT OR IGNORE keeps keys unique, keeps an existing key's value, adds the value for a new key, and leaves every other key as it was |
| Tables.InsertOrIgnoreHas | memory_manager.py:552 | after INSERT OR IGNORE a key is present exactly when it was before or is the inserted one |
| Tables.UpdateAt | memory_manager.py:559 | UPDATE ... WHERE key = k keeps the rows, their order and their keys, and applies the change to the rows with that key only |
| Tables.UpdateAtSpec | memory_manager.py:559 | on unique keys, UPDATE changes the key's value and no other; an absent key changes nothing |
| Tables.UpdateAtHasKey | memory_manager.py:559 | UPDATE neither adds nor removes keys |
| Tables.Limit | seedai/aurelia_memory.py:99 | LIMIT n keeps a prefix of n rows (all rows when there are fewer), and a negative n keeps every row |
| Tables.Reverse | seedai/aurelia_memory.py:103 | `[::-1]` puts the rows in the opposite order, and they are the same rows |
| Tables.ReverseReverse | seedai/aurelia_memory.py:103 | reversing twice gives back the rows |
| Tables.Filter | seedai/aurelia_memory.py:131 | WHERE keeps exactly the rows that satisfy it, in order, and adds none |
| Tables.FilterAppend | seedai/aurelia_memory.py:131 | filtering rows added later leaves the result for the earlier rows in front |
| Tables.Count | gateway/seedai_storage.py:115-122 | COUNT(*) is the number of rows that satisfy the condition (the rows of one topic for GROUP BY) |
| Tables.CountSnoc | gateway/seedai_storage.py:122 | one more row adds one to the count exactly when it satisfies the condition |
| Tables.SortDesc | seedai/aurelia_memory.py:131-136 | ORDER BY p DESC, q DESC gives a permutation of the rows ordered by the first key and then the second |
| Tables.BumpSpec | memory_manager.py:901 | hosts[h] = hosts.get(h, 0) + 1 keeps keys unique, raises h's count by one (to 1 when new), leaves every other count, and adds one to the total |
| CoreBlocks.SkipWs | gateway/seedai_storage.py:14 | the end of the maximal `\s*` run: everything before it is whitespace and the character at it is not |
| CoreBlocks.OpenerEnd | gateway/seedai_storage.py:14 | where the opening brace must stand when the grammar's opener matches at an index |
| CoreBlocks.LazyBody | gateway/seedai_storage.py:14 | the lazy `.*?` body ends at the first '}' after which the closer matches; no earlier '}' closes, and None means no '}' closes |
| CoreBlocks.MatchAt | gateway/core_memory_handler.py:30 | a match at an index starts there, its body starts with '{' where the opener ends, and it is well formed |
| CoreBlocks.Search | gateway/seedai_storage.py:52 | search returns the leftmost index at which the grammar matches, and None when no index does |
| CoreBlocks.SearchFinds | gateway/seedai_storage.py:52 | once every earlier start has failed, search returns the match at the first start that succeeds |
| CoreBlocks.Sub | gateway/seedai_storage.py:64 | sub("", t) removes the successive leftmost matches and is strictly shorter when a block is present |
| CoreBlocks.SubOneBlock | gateway/seedai_storage.py:64 | with exactly one block, sub removes exactly that block's text and keeps what surrounds it |
| CoreBlocks.HandlerMatchIsStorageMatch | gateway/core_memory_handler.py:30 | every block the case-sensitive multi-line grammar accepts, the storage grammar accepts at the same start, with the same body start and a body ending no later |
| CoreBlocks.HandlerNeedsNewline | gateway/core_memory_handler.py:30 | text without a newline never holds a block of the multi-line grammar |
| CoreBlocks.UnderscoreFormNotMatched | gateway/core_store.py:7-10 | text in which every "core" is followed by "_" holds no block of the CORE MEMORY UPDATE grammar |
| CoreBlocks.StorageMatchShape | gateway/seedai_storage.py:14 | a storage match starts with the opener and ends with the closer, case-insensitively |
| CoreBlocks.NoMatchInSlice | gateway/seedai_storage.py:14 | a slice of a text without a storage block holds none either |
| CoreBlocks.OpenerBorderFree | gateway/seedai_storage.py:14 | two occurrences of the opener never overlap |
| CoreBlocks.CloseHoldsOpen | gateway/seedai_storage.py:14 | the closer END_CORE_MEMORY_UPDATE holds the opener four characters in |
| CoreBlocks.StorageBlockAt | gateway/seedai_storage.py:14 | an opener, whitespace, a brace body without '}', whitespace and the closer form a storage match at the opener |
| MemoryStore.Saved | gateway/memory_store.py:24-29 | succeeds exactly when the loaded value is a dict or there is nothing to assign; a dict then holds every key of the new dict with its new value and keeps every other key |
| MemoryStore.SaveCore | gateway/memory_store.py:24-29 | save_core returns Saved of the loaded value and writes exactly that back; when the assignment raises the file is untouched |
| MemoryStore.SaveTwice | gateway/memory_store.py:24-29 | saving the same dict twice leaves what saving it once left |
| MemoryStore.SaveEmpty | gateway/memory_store.py:24-29 | saving {} changes nothing |
| CoreStore.DeepMerge | gateway/core_store.py:28-34 | the merged dict has the keys of both; a key only in dst keeps its value; a key of src replaces dst's value unless both values are dicts, which are merged recursively |
| CoreStore.MergeIn | gateway/core_store.py:28-34 | the key-by-key loop of deep_merge computes DeepMerge |
| CoreStore.PartialAll | gateway/core_store.py:29-34 | after every key of src is visited, the loop's dict is DeepMerge(dst, src) whatever the visiting order |
| CoreStore.MergeEmpty | gateway/core_store.py:28-34 | merging {} changes nothing |
| CoreStore.MergeSelf | gateway/core_store.py:28-34 | merging a dict into itself changes nothing |
| CoreStore.MergeIdempotent | gateway/core_store.py:28-34 | merging the same src twice gives what merging it once gave |
| Common.JsonFile.Loaded | gateway/core_store.py:17-22 | the value the file holds, or {} when it is missing or does not parse; load_core (gateway/memory_store.py) and load_all_conversations (gateway/core_memory_handler.py) follow the same pattern |
| CoreStore.MergedCore | gateway/core_store.py:36-42 | fails exactly when the loaded data is not a dict, with AttributeError (from data.get) exactly when it is a list holding the namespace or a string containing it and TypeError otherwise; otherwise the namespace holds DeepMerge of its old dict (or {} when absent or not a dict) and the payload, every other key unchanged |
| CoreStore.MergeIntoCore | gateway/core_store.py:36-42 | merge_into_core returns MergedCore of the loaded file and writes exactly the returned dict back; on failure the file is untouched (the AttributeError or TypeError MergedCore names) |
| CoreStore.CoreErrors | gateway/core_store.py:38-39 | ["aurelia"] and "my aurelia notes" raise AttributeError under the namespace "aurelia"; ["seedai"] and null raise TypeError |
| CoreStore.MergeIntoCoreTwice | gateway/core_store.py:36-42 | merging the same payload twice leaves the core as merging it once |
| CoreStore.ParseCoreBlock | gateway/core_store.py:44-52 | None for no text or no block; otherwise the parse of the body of the first (leftmost, shortest) block, None when it does not parse |
| CoreStore.UnderscoreSpellingIgnored | gateway/core_store.py:7-10 | a text whose every "core" is followed by "_" holds no block of this grammar (it requires whitespace between CORE, MEMORY and UPDATE) |
| Emotion.PositiveFirst | seedai_emotion_module.py:10-15 | a text holding both a positive and a negative keyword makes the core happy, since the positive test comes first |
| Emotion.NegativeOrNeutral | seedai_emotion_module.py:13-17 | with no positive keyword, the core becomes sad exactly when a negative keyword occurs and curious exactly when none does |
| Emotion.ReactionIgnoresCase | seedai_emotion_module.py:9-10 | keywords are matched as substrings of the lower-cased text, so the reaction to a text and to its lower-case form agree |
| Emotion.EmotionCore.constructor | seedai_emotion_module.py:4-6 | the initial state is emotions["current_state"], or "curious" when the key is absent |
| Emotion.EmotionCore.React | seedai_emotion_module.py:8-17 | curious needs no update; happy and sad raise their level (+0.1 / +0.2, capped at 1.0, a bool level counting as 0 or 1) through update_emotion before the state changes; a memory without update_emotion raises AttributeError first, since the method is looked up before its arguments are evaluated, and a missing or non-numeric level raises next; on any error the state is left as it was |
| Emotion.EmotionCore.DescribeState | seedai_emotion_module.py:22-23 | the description is "I feel " + the state + " right now." |
| Emotion.RaisedCapped | seedai_emotion_module.py:11-14 | a level react computes is at most 1.0 and not below the level it raises |
| Emotion.Tone | seedai_emotion_module.py:29-36 | the emoji of one of the five emotions (case-insensitive), "" otherwise; at most one character, never whitespace |
| Emotion.Prefixed | seedai_emotion_module.py:37 | one entry per sentence, in order, each the tone, a space and the sentence |
| Emotion.ToneLines | seedai_emotion_module.py:37 | when no sentence holds a newline, the reply splits back at "\n" into exactly the prefixed sentences |
| Emotion.AdjustResponseTone | seedai_emotion_module.py:28-37 | empty exactly for no sentences; otherwise the reply starts with the tone, a space and the first sentence |
| Emotion.ReactionHasTone | seedai_emotion_module.py:12-17 | every state react can move to (happy, sad, curious) has an emoji in the tone map |
| Emotion.EmojiOfEmptySentence | seedai_reasoner.py:222 | adjust_response_tone(emotion, [""])[0:2].strip() is exactly the emotion's emoji |
| Grammar.PosPriority | grammar.py:38-57 | identify_pos returns the i-th part of speech exactly when the i-th set holds the word and no earlier set does |
| Grammar.PosUnknown | grammar.py:56-57 | the tag is "unknown" exactly when no set holds the word |
| Grammar.Grammar.IdentifyPos | grammar.py:38-57 | a word is a noun exactly when the noun set holds it, a verb exactly when the verb set holds it and the noun set does not, and "unknown" exactly when no set holds it |
| Grammar.AddWordsSpec | grammar.py:15-31 | add_words grows the set that pos names by exactly the given words and leaves every other set unchanged |
| Grammar.AddWordsUnknownPos | grammar.py:15-31 | a pos that names no set changes nothing |
| Grammar.Grammar.constructor | grammar.py:4-13 | every set starts empty except the articles {a, an, the} |
| Grammar.Grammar.AddWords | grammar.py:15-31 | the lexicon after add_words is the one AddWordsSpec describes |
| Grammar.WRun | grammar.py:35 | the length of the maximal run of 'w' characters at an index |
| Grammar.LiteralMatch | grammar.py:35 | a match of the pattern as written (backslash, b, backslash, w+, backslash, b) starts with a backslash and has at least six characters |
| Grammar.FindAllNoBackslash | grammar.py:35 | the pattern as written finds nothing in a text without a backslash |
| Grammar.TokenizeNoBackslash | grammar.py:33-36 | tokenize as written returns [] for every sentence without a backslash |
| Grammar.RunLen | grammar.py:35 | the length of the maximal run of word characters |
| Grammar.WordTokens | grammar.py:35 | the intended tokens are non-empty runs of word characters |
| Grammar.WordTokensJoin | grammar.py:33-36 | words joined by single spaces tokenize back to the same words with the intended pattern |
| Grammar.Tagged | grammar.py:59-63 | one (token, tag) pair per token, in order, each tagged by identify_pos |
| Grammar.OfPos | grammar.py:75-77 | every word kept has the requested tag |
| Grammar.OfPosNonEmpty | grammar.py:75-79 | the filtered list is non-empty exactly when some word has the tag |
| Grammar.OfPosFirst | grammar.py:82-84 | the first word of the filtered list is the earliest word of the input with that tag |
| Grammar.HasTagIff | grammar.py:65-70 | a tag occurs among the tagged words exactly when the filtered list for it is non-empty |
| Grammar.GenerateIffValid | grammar.py:65-80 | generate_sentence produces a sentence exactly when the words pass is_valid_sentence's noun-and-verb test |
| Grammar.Grammar.IsValidSentence | grammar.py:65-70 | valid exactly when some token of the sentence is tagged noun and some token is tagged verb (tokens by the corrected pattern, see Left out) |
| Grammar.Grammar.GenerateSentence | grammar.py:72-88 | a sentence rather than the fallback exactly when the words hold a noun and a verb, the test is_valid_sentence applies to tagged tokens |
| Grammar.GenerateFallback | grammar.py:79-80 | the fallback message is returned exactly when there is no noun or no verb |
| Grammar.GenerateShape | grammar.py:82-87 | a generated sentence is "The [adjective ]noun verbs." with the first noun, verb and (non-empty) adjective |
| Grammar.Grammar.ParseSentence | grammar.py:59-63 | parse_sentence pairs every token of the corrected tokenize with its identify_pos tag, in order |
| Grammar.NoBackslashNeverValid | grammar.py:59-70 | as written, a sentence without a backslash has no noun and no verb among its tagged tokens, so it is never valid |
| Grammar.CatRunsAsWritten | grammar.py:33-36 | as written, "the cat runs" yields no token, so no noun is found even with cat a noun and runs a verb |
| Grammar.CatRunsIntended | grammar.py:33-70 | with the pattern escaped once, parse_sentence tags "the cat runs" as [the, cat: noun, runs: verb] and the sentence is valid |
| Grammar.CatRunsWords | grammar.py:35 | the intended pattern splits "the cat runs" into its three words |
| SeedaiStorage.ExtractCoreJson | gateway/seedai_storage.py:51-61 | None when the text holds no block; otherwise the parse of the leftmost block's brace body, None when that does not parse |
| SeedaiStorage.StripCoreBlocks | gateway/seedai_storage.py:63-64 | never longer than the text and never starting or ending in whitespace; a text without a block is only stripped |
| SeedaiStorage.NoBlockWithoutOpener | gateway/seedai_storage.py:14 | no block starts at or after an index past which the opener does not occur (in any letter case) |
| SeedaiStorage.SubSingleBlock | gateway/seedai_storage.py:64 | when no opener follows the leftmost block, sub removes exactly that block |
| SeedaiStorage.NoBlockInPlainJoin | gateway/seedai_storage.py:64 | two texts without an opener cannot form a block when joined |
| SeedaiStorage.NoBlockInJoin | gateway/seedai_storage.py:64 | joining and stripping two texts without an opener leaves no block |
| SeedaiStorage.StripSingleBlock | gateway/seedai_storage.py:63-64 | with a single block and no other opener, stripping removes that block and strips the rest, and nothing is extracted afterwards |
| SeedaiStorage.OneBlock | gateway/seedai_storage.py:51-64 | for ordinary text, one block and ordinary text, extraction parses exactly the block's body, stripping leaves the surrounding text stripped, and the stripped text holds no block |
| SeedaiStorage.PiecesMatch | gateway/seedai_storage.py:14 | the opener, whitespace, a brace body, whitespace and the closer form a match whose body group is that body and whose surroundings are the text before and after |
| SeedaiStorage.LeftmostAt | gateway/seedai_storage.py:52 | a match at an index with no opener before it is what search returns |
| SeedaiStorage.SampleReply | tools/test_memory_save.py:9-18 | the sample reply with a block on its own lines: the block's body is extracted and the reply stripped of it is "Hello user.\n\nGoodbye." |
| SeedaiStorage.StripCanLeaveBlock | gateway/seedai_storage.py:63-64 | an observation, not claimed as a defect: a single sub pass can leave a new block; for the opener, the opener, "{}", the closer, "{}", the closer, the stripped text still holds a block with body "{}" |
| SeedaiStorage.LeaveRestStrip | gateway/seedai_storage.py:64 | what that pass leaves is unchanged by strip |
| SeedaiStorage.FirstTruthy | gateway/seedai_storage.py:67-68 | `a or b or None`: the first of the two fields that is truthy, None exactly when neither is |
| SeedaiStorage.RecentRows | gateway/seedai_storage.py:117-118 | the newest `limit` rows, newest id first (all of them for a negative limit) |
| SeedaiStorage.CountsOfSnoc | gateway/seedai_storage.py:122-123 | counting one more row keeps the per-topic counts exact (null topics skipped) |
| SeedaiStorage.Kept | gateway/seedai_storage.py:78-91 | the rows forget_memory keeps: none it deletes, every other row, no new ones |
| SeedaiStorage.KeptIncreasing | gateway/seedai_storage.py:78-91 | deleting rows keeps the AUTOINCREMENT ids increasing |
| SeedaiStorage.KeptAll | gateway/seedai_storage.py:87-89 | with neither a topic nor an owner, nothing is deleted |
| SeedaiStorage.Store.constructor | gateway/seedai_storage.py:16-46 | init_db on a fresh file: three empty tables |
| SeedaiStorage.Store.SaveMemoryEntry | gateway/seedai_storage.py:66-76 | one row appended with the next id, topic from "topic" else "key", owner from "owner" else "owner_id"; a list or object there raises and stores nothing; the other tables are unchanged |
| SeedaiStorage.Store.ForgetMemory | gateway/seedai_storage.py:78-91 | the memory table becomes the kept rows; with neither a topic nor an owner it is unchanged |
| SeedaiStorage.Store.GetMemorySummary | gateway/seedai_storage.py:112-125 | the total is the row count, recent the newest rows, and topic_counts holds each non-null topic exactly once with its row count, the counts summing to the rows with a topic |
| SeedaiStorage.Store.AppendMessage | gateway/seedai_storage.py:127-135 | the message row is appended with the next id and the conversation row is replaced (title None, meta {"id": cid}); memory is unchanged |
| SeedaiStorage.Store.ListConversations | gateway/seedai_storage.py:151-157 | one entry per conversation, the most recently replaced first |
| SeedaiStorage.Store.ProcessModelOutput | gateway/seedai_storage.py:160-177 | the sanitized text is the stripped reply and parsed the extracted block; the call succeeds exactly when there is no truthy block, or the block is an object whose topic and owner columns the driver accepts; on success the reply is appended as an assistant message and the conversation row replaced, after the truthy block is saved, verbatim iff its "value" is truthy; on failure no table changes |
| SeedaiStorage.MessagesOfSnoc | gateway/seedai_storage.py:145-148 | one more message row adds that message to its own conversation's list, at the end, and to no other |
| SeedaiStorage.AppendThenLoad | gateway/seedai_storage.py:127-149 | after append_message, load_conversation gives the earlier messages followed by the new one, title None and meta {"id": cid} |
| SeedaiStorage.Store.LoadConversation | gateway/seedai_storage.py:137-149 | the result carries the asked id; it is found exactly when the conversations table holds the id, with that row's title, meta and updated_at, and the conversation's messages in insertion order |
| SeedaiStorage.AppendKeepsOthers | gateway/seedai_storage.py:127-149 | appending to one conversation does not change how any other conversation loads |
| CoreMemoryHandler.ExtractCoreJson | gateway/core_memory_handler.py:45-57 | None for empty text and for text without a block; otherwise the parse of the body of the first block, None when it does not parse |
| CoreMemoryHandler.StripCoreBlocks | gateway/core_memory_handler.py:60-64 | empty text is returned as it is; otherwise the result is no longer than the text and starts and ends with non-whitespace, and without a block it is the stripped text |
| CoreMemoryHandler.SingleLineIgnored | gateway/core_memory_handler.py:30 | the grammar demands a newline before the body and before the closer, so single-line text yields nothing and is only stripped |
| CoreMemoryHandler.SingleLineBlockComparison | gateway/core_memory_handler.py:30 | the same single-line block that the SQLite gateway (gateway/seedai_storage.py:14) extracts is ignored here |
| CoreMemoryHandler.AppendMemoryFile | gateway/core_memory_handler.py:67-93 | the entry is shallow-merged into core.json through save_core and the saved dict returned; when the stored value is not a dict (and the entry is non-empty) the call raises and the file is untouched |
| CoreMemoryHandler.Items | gateway/core_memory_handler.py:123 | what list.extend appends: a list's items, a string's characters, a dict's keys; anything else raises TypeError |
| CoreMemoryHandler.Extended | gateway/core_memory_handler.py:118-125 | without truthy new messages the stored list is kept; otherwise they are appended, and a stored value that is not a list raises |
| CoreMemoryHandler.Persisted | gateway/core_memory_handler.py:109-134 | the saved record has exactly id (the clock id for a falsy id), messages and updated; the file's dict gains that record under the id and keeps every other conversation |
| CoreMemoryHandler.PersistMessages | gateway/core_memory_handler.py:116-125 | the saved messages are the stored ones followed by the new ones, in order, and the stored ones alone when none are given |
| CoreMemoryHandler.PersistConversation | gateway/core_memory_handler.py:109-134 | persist_conversation returns the record Persisted computes and writes exactly the new dict; on an error the file is untouched |
| MemoryBootstrap.PresentSpec | gateway/memory_bootstrap.py:39-48 | the sections present are exactly the truthy fields, in the order identity, relationships, capabilities, principles |
| MemoryBootstrap.LinesLabelled | gateway/memory_bootstrap.py:40-48 | each summary line starts with the label of its own field |
| MemoryBootstrap.SummarySections | gateway/memory_bootstrap.py:31-50 | a summary that is built has one labelled line per truthy field, in field order |
| MemoryBootstrap.SummaryEmpty | gateway/memory_bootstrap.py:50-83 | a built summary is empty exactly when no field is set, so the core message is added exactly when some field is |
| MemoryBootstrap.SummaryFallback | gateway/memory_bootstrap.py:51-52 | json.dumps(data) is the summary when data is not an object, when identity or relationships is set but not an object, or when a list to join holds a non-string |
| MemoryBootstrap.CollectedOrder | gateway/memory_bootstrap.py:66-96 | the messages come in the order persona (stripped), core summary, digest; each is present exactly when its source is non-empty; the digest message holds the last min(len, 2000) characters of the digest |
| MemoryBootstrap.JoinedLength | gateway/memory_bootstrap.py:100 | the joined length is the sum of the contents plus two per separator |
| MemoryBootstrap.LastMarked | gateway/memory_bootstrap.py:105-106 | the last message starting with "Recent digest entries:", None when there is none |
| MemoryBootstrap.DigestTrimFits | gateway/memory_bootstrap.py:107-116 | when room is left for the digest, cutting it to the remaining characters is enough for the messages to fit |
| MemoryBootstrap.CutDigestKeepsTail | gateway/memory_bootstrap.py:116 | the cut digest keeps its prefix and exactly the last `remaining` characters of its text (all of it when shorter) |
| MemoryBootstrap.TrimDigest | gateway/memory_bootstrap.py:104-117 | the backwards search finds the last digest message and deletes it when no room is left, cuts it otherwise, and leaves the messages alone when there is none |
| MemoryBootstrap.Longest | gateway/memory_bootstrap.py:125-127 | the first of the (length, index) pairs sorted in reverse: a longest message, the last among equals |
| MemoryBootstrap.ShrinkStuck | gateway/memory_bootstrap.py:128-129 | a longest message of 101 to 1000 characters is left unchanged by a pass |
| MemoryBootstrap.LoopNeverEnds | gateway/memory_bootstrap.py:120-133 | over budget with a longest message of 101 to 1000 characters, the loop does not finish in any number of passes |
| MemoryBootstrap.StuckPersona | gateway/memory_bootstrap.py:120-133 | a 200-character persona under a budget of 150 never finishes |
| MemoryBootstrap.ShrinkProgress | gateway/memory_bootstrap.py:128-131 | with the cut applied only above 1000 characters, each pass strictly shortens the messages or drops one |
| MemoryBootstrap.ShrinkToFit | gateway/memory_bootstrap.py:119-133 | the corrected while loop computes ShrinkAll |
| MemoryBootstrap.ShrinkAll | gateway/memory_bootstrap.py:119-133 | the corrected loop: repeatedly cut the longest message (the last among equals) to its last 1000 characters or drop it; it ends, its result fits the budget or is empty and has no more messages, messages that fit are returned unchanged, and an IndexError comes only for no messages and a negative budget |
| MemoryBootstrap.ShrinkKeepsOthers | gateway/memory_bootstrap.py:125-131 | one pass changes only the longest message: it becomes its last 1000 characters when longer, and is deleted otherwise |
| MemoryBootstrap.AsMessages | gateway/memory_bootstrap.py:71-94 | every message has role "system" and the given content |
| MemoryBootstrap.LoadBootstrapMessages | gateway/memory_bootstrap.py:55-135 | messages that fit are returned as collected; otherwise the result (or the error) is that of trimming the digest and then ShrinkAll, as system messages; it is never longer than what was collected and fits the budget unless empty |
| MemoryManager.RedactKey | memory_manager.py:23-28 | empty exactly for an empty key; a key of up to eight characters shows "****" and at most its last four; a longer one its first four, "****" and its last four |
| MemoryManager.RetryCalls | memory_manager.py:31-55 | with_retry makes between one and seven calls |
| MemoryManager.RetrySkipsLocks | memory_manager.py:36-46 | calls that run into a lock are skipped over, the last lock error remembered |
| MemoryManager.RetryFirstNonLock | memory_manager.py:37-46 | the first of the six delayed calls that does not hit a lock decides: its value is returned or its exception propagates unchanged |
| MemoryManager.RetryFinal | memory_manager.py:48-53 | after six lock errors the seventh call is the last; an exception it raises becomes AureliaError("SQLite busy: " + the sixth lock message) |
| MemoryManager.SleepBound | memory_manager.py:32-35 | the sleeps of one wrapped call add up to at most 0.78 seconds |
| MemoryManager.ApplyWellFormed | memory_manager.py:169-400 | no statement the manager issues puts a second row under a PRIMARY KEY or UNIQUE key |
| MemoryManager.ApplyAllWellFormed | memory_manager.py:153-167 | a whole transaction keeps every keyed table free of duplicate keys |
| MemoryManager.CommittedWellFormed | memory_manager.py:465-784 | every committed writing method keeps the keyed tables free of duplicate keys |
| MemoryManager.FitFrom | memory_manager.py:579-580 | the longest prefix from k on whose UTF-8 encoding fits in n bytes |
| MemoryManager.CapContent | memory_manager.py:576-580 | the stored content fits in MAX_CONTENT_BYTES bytes of UTF-8, is a prefix of the content, is all of it when it fits, and otherwise is the longest prefix that fits (the partial character dropped) |
| MemoryManager.LikeIsContainment | memory_manager.py:1084 | `col LIKE '%q%'` holds exactly when q occurs in col ignoring ASCII case, for a query without '%' or '_' |
| MemoryManager.LikePrefix | memory_manager.py:1084 | `s LIKE 'q%'` holds exactly when s starts with q ignoring ASCII case |
| MemoryManager.LikeLeadingAny | memory_manager.py:1084 | a leading '%' matches exactly when some suffix matches the rest of the pattern |
| MemoryManager.SearchRows | memory_manager.py:1074-1109 | an empty query gives []; at most `limit` rows, each a row of the table that the LIKE test accepts; under the limit, every such row |
| MemoryManager.MemoryManager.SearchMemories | memory_manager.py:1074-1085 | [] for an empty query, at most `limit` rows, each a memory whose content is LIKE %query% |
| MemoryManager.MemoryManager.SearchCrawls | memory_manager.py:1087-1097 | [] for an empty query, at most `limit` rows, each a crawl whose content or title is LIKE %query% |
| MemoryManager.MemoryManager.SearchVocab | memory_manager.py:1099-1109 | [] for an empty query, at most `limit` rows, each a vocab row whose definition or word is LIKE %query% |
| MemoryManager.MemoryManager.GetIdentity | memory_manager.py:474-480 | a value exactly when the identity table has the key, and then the stored row's value |
| MemoryManager.MemoryManager.GetVocab | memory_manager.py:533-537 | a row exactly when the vocab table has the word, and then the stored row |
| MemoryManager.MemoryManager.GetApiKey | memory_manager.py:939-943 | a key exactly when the api_keys table has the service, and then that row's key |
| MemoryManager.MemoryManager.GetCrawlByUrl | memory_manager.py:919-923 | a row exactly when the crawls table has the url, and then the stored row |
| MemoryManager.SanitizeUrl | memory_manager.py:824-834 | "url required" for an empty url; "http://" put in front of a url without a scheme; only http and https accepted, a url that already has one returned as it is |
| MemoryManager.FindReCi | memory_manager.py:859 | the first index from `from` at which the pattern matches ignoring case, None when there is none |
| MemoryManager.TitleTag | memory_manager.py:859-861 | the text between the leftmost "<title>" that has a closing tag after it and the first such "</title>"; None when no opening tag is followed by a closing one |
| MemoryManager.TitleOf | memory_manager.py:857-867 | the stripped <title> text when non-empty, else the host name, else the url; never empty for a non-empty url |
| MemoryManager.NextSep | memory_manager.py:892 | the first '.' or newline at or after i, or the end |
| MemoryManager.SplitSentences | memory_manager.py:892 | re.split on a separator and the whitespace after it: at least one piece and no piece holds a separator |
| MemoryManager.NonEmpty | memory_manager.py:894 | the non-empty pieces, each taken from the list |
| MemoryManager.SummaryOfOneSentence | memory_manager.py:890-894 | a content without '.' or newline is its own summary, stripped |
| MemoryManager.HostCounts | memory_manager.py:896-903 | no host twice; a host is present exactly when some link has it as its (truthy) host name, with the number of such links as its count |
| MemoryManager.CountLinkTally | memory_manager.py:897-901 | counting one more link keeps the keys unique and keeps every count equal to its tally |
| MemoryManager.TopHosts | memory_manager.py:904-905 | the names of the first min(5, len(hosts)) entries of the ranking, in ranking order |
| MemoryManager.TopRanked | memory_manager.py:904 | five entries (or all) of the dict; every entry taken has a higher count than every entry left out, or the same count and an earlier dict position (the sort is stable) |
| MemoryManager.TopBeforeRest | memory_manager.py:904 | in a sorted list an entry among the first m never sorts after one outside them |
| MemoryManager.TopHostsSpec | memory_manager.py:904-905 | on a dict, every listed name is a key, and a listed host's count is at least that of any host left out, earlier in dict order on a tie |
| MemoryManager.FetchPage | memory_manager.py:836-869 | the approval gate comes first, then the url check, then the fetch, each raising its own AureliaError; a page carries the sanitized url, a non-empty title, the parser's text cut to MAX_CONTENT_BYTES characters and its links |
| MemoryManager.MemoryManager.constructor | memory_manager.py:103-109 | a manager on a fresh file: every table empty |
| MemoryManager.MemoryManager.Transaction | memory_manager.py:153-167 | a failure at any step rolls back and re-raises, leaving the tables as they were; otherwise every statement is applied in order |
| MemoryManager.MemoryManager.RunStatements | memory_manager.py:157-159 | the statements run one by one on a working copy; the failing step raises its exception |
| MemoryManager.MemoryManager.Attempt | memory_manager.py:465-784 | one call of a writing method: its argument check, then its transaction; the tables change only when it commits |
| MemoryManager.MemoryManager.Execute | memory_manager.py:31-55 | the writing method under with_retry: the result and the number of calls are those of the retry rule, the sleeps are the first delays, and the tables change only when the result is a success |
| MemoryManager.MemoryManager.ListApiKeys | memory_manager.py:945-948 | one (service, added_on) pair per key, most recently replaced first, the keys themselves never shown |
| MemoryManager.MemoryManager.GetMemories | memory_manager.py:586-592 | the newest `limit` memories of a non-empty type (of every type for ''), newest first, and all of them for a negative limit |
| MemoryManager.RecentMemories | memory_manager.py:586-592 | ORDER BY timestamp DESC LIMIT: min(limit, n) selected rows, the i-th being the i-th newest; every row for a negative limit |
| MemoryManager.AddedMemoryFirst | memory_manager.py:576-592 | a memory just added heads get_memories for its own type and for no type, followed by the older rows under a limit one smaller |
| MemoryManager.MemoryManager.CrawlUrl | memory_manager.py:835-917 | crawl_url under @with_retry: result and number of calls follow the retry rule over the body's attempts; nothing is written when it raises; on success the crawls row is replaced under the url and the derived fact, concept and log rows are each written or not |
| MemoryManager.MemoryManager.CrawlOnce | memory_manager.py:837-917 | one body call: the result is CrawlAttempt; a failing gate, url check, fetch or crawls write writes nothing; otherwise the crawls row is replaced and the derived rows are each written or not |
| MemoryManager.CrawlAttempt | memory_manager.py:837-917 | the gate, url and fetch errors as AureliaError, then the crawls write's exception, then the info dict |
| MemoryManager.CrawlPageErrorNotRetried | memory_manager.py:31-55 | a gate, url or fetch error raises after one call: AureliaError is not retried |
| MemoryManager.CrawlBusy | memory_manager.py:31-55 | a crawls write that hits a lock on all seven calls ends in AureliaError("SQLite busy: ...") after seven calls |
| MemoryManager.MemoryManager.Derive | memory_manager.py:879-915 | the derived writes ignore their failures: each of facts, concepts and logs gains its one row or stays as it was |
| MemoryManager.MemoryManager.CountHosts | memory_manager.py:897-904 | the loop builds exactly the host counts |
| MemoryManager.FactsAboutMembers | memory_manager.py:743-749 | for a non-empty subject, exactly the facts with that subject; otherwise every fact, newest first |
| MemoryManager.MemoryManager.GetFacts | memory_manager.py:743-749 | for a non-empty subject, exactly the facts about it, each row once and newest first; otherwise every fact, newest first |
| MemoryManager.StoreIdentitySpec | memory_manager.py:465-472 | an empty key raises "identity key required" and changes nothing; otherwise the key maps to the value ("" for None), every other key keeps its value and no other table changes |
| MemoryManager.AddVocabSpec | memory_manager.py:526-531 | an empty word raises "word required"; otherwise the word maps to the new definition and examples, and nothing else changes |
| MemoryManager.AddApiKeySpec | memory_manager.py:932-937 | a missing service or key raises "service and key required"; otherwise the service maps to the key with a new added_on, and nothing else changes |
| MemoryManager.AddUnknownWordSpec | memory_manager.py:546-552 | an empty word returns without writing; INSERT OR IGNORE keeps an existing row, adds an unresolved one otherwise, and nothing else changes |
| MemoryManager.ResolveUnknownWordSpec | memory_manager.py:555-559 | the word maps to the new vocab row and its unknown-word row, if any, becomes resolved; no other word and no other table changes |
| MemoryManager.AddFactSpec | memory_manager.py:733-741 | a None subject raises "subject required"; otherwise one fact is appended (object "" for None), the new row id is returned, and it heads get_facts for its subject |
| MemoryManager.AddMemorySpec | memory_manager.py:576-584 | one memory appended, the earlier ones unchanged; its content is "" for None, fits in MAX_CONTENT_BYTES bytes, is a prefix of the content and all of it when it fits |
| MemoryManager.ConceptCommit | memory_manager.py:753-759 | add_concept appends one concept row and changes nothing else |
| MemoryManager.LogCommit | memory_manager.py:780-784 | log_event appends one log row and changes nothing else |
| SeedaiMemory.WriteWellFormed | seedai_memory.py:64-84 | a manager call whose exception the adapter swallows keeps the keyed tables free of duplicate keys |
| SeedaiMemory.Drafts | seedai_memory.py:73-78 | one draft per fact, in order, each stamped with its own time.time() |
| SeedaiMemory.DraftsShape | seedai_memory.py:74-78 | a tuple becomes a vocabulary item with its word and info, anything else a general item holding the value, all tagged ephemeral |
| SeedaiMemory.CommitCount | seedai_memory.py:86-108 | the count returned is the number of general items plus the vocabulary items whose add_concept and add_vocab both commit |
| SeedaiMemory.CommitSets | seedai_memory.py:96-99 | committing adds exactly the committed words to the vocabulary set and removes exactly those from the unknown-word set |
| SeedaiMemory.CommitItemCoherent | seedai_memory.py:90-108 | one item keeps the adapter coherent (no word both known and unknown, no belief twice, tables keyed) and only grows the vocabulary and the beliefs |
| SeedaiMemory.CommitCoherent | seedai_memory.py:86-116 | committing all items keeps the adapter coherent and only grows the vocabulary and the beliefs |
| SeedaiMemory.CommittedWord | seedai_memory.py:96-103 | a committed vocabulary word ends known, not unknown, and its belief "word: info" is listed exactly once |
| SeedaiMemory.Cleaned | seedai_memory.py:61 | only ASCII letters and digits are left, never more characters than the token had |
| SeedaiMemory.Candidates | seedai_memory.py:60-62 | every candidate is non-empty and not in the vocabulary set |
| SeedaiMemory.CandidatesMembers | seedai_memory.py:60-62 | a word is a candidate exactly when some lower-cased token cleans to it and it is neither empty nor in the vocabulary set |
| SeedaiMemory.UnknownStep | memory_manager.py:546-552 | one add_unknown_word call inserts the word unless it is empty, already present or the call fails |
| SeedaiMemory.RecordUnknownFrame | seedai_memory.py:64-67 | recording unknown words touches no table but unknown_words and keeps it keyed |
| SeedaiMemory.RecordUnknownHas | seedai_memory.py:58-67 | a word is in the unknown_words table afterwards exactly when it was before or one of the calls for it committed |
| SeedaiMemory.LastBeliefs | seedai_memory.py:188-189 | the last n beliefs in insertion order (all of them when there are fewer) |
| SeedaiMemory.SQLiteMemory.GetRecentBeliefs | seedai_memory.py:188-189 | beliefs[-limit:]: the last `limit` beliefs in insertion order for a positive limit, and every belief for 0 |
| SeedaiMemory.RecentBeliefsPositive | seedai_memory.py:188-189 | for a positive limit, beliefs[-limit:] is the last limit beliefs |
| SeedaiMemory.RecentBeliefsZero | seedai_memory.py:188-189 | beliefs[-0:] returns every belief, not none |
| SeedaiMemory.ConversationIn | seedai_memory.py:161-169 | None when nothing is stored under "conversation_<id>" |
| SeedaiMemory.SQLiteMemory.GetConversationMemory | seedai_memory.py:161-169 | None when nothing is stored under conversation_<id> (ConversationRoundTrip gives the stored value back) |
| SeedaiMemory.SQLiteMemory.KnowsWord | seedai_memory.py:55-56 | true exactly when the vocabulary set holds the word or get_vocab finds a row for it |
| SeedaiMemory.ConversationRoundTrip | seedai_memory.py:161-176 | saving a conversation and reading it back gives the content back (for a loads that inverts a non-empty dumps) and leaves every other conversation as it was |
| SeedaiMemory.SQLiteMemory.constructor | seedai_memory.py:14-52 | the vocabulary set holds the words of the vocab table, the other sets are empty, and the staged buffer is identity["staged_learning"] decoded when set and parsable, else empty |
| SeedaiMemory.SQLiteMemory.ExtractUnknownWords | seedai_memory.py:58-67 | every candidate joins the unknown-word set and is offered to add_unknown_word with the text as context; nothing else changes |
| SeedaiMemory.SQLiteMemory.RecordWords | seedai_memory.py:60-67 | the loop adds exactly the candidates to the unknown-word set and makes exactly their add_unknown_word calls, in order |
| SeedaiMemory.SQLiteMemory.StageLearningDrafts | seedai_memory.py:70-84 | the drafts are appended to the buffer and the buffer written to identity["staged_learning"]; the vocabulary, the unknown words, the beliefs and what knows_word answers are unchanged |
| SeedaiMemory.SQLiteMemory.CommitStagedLearning | seedai_memory.py:86-116 | the count is that of the succeeding items (0 for an empty buffer); the buffer ends empty and is stored as "[]"; the sets, the beliefs and the database are those of committing every item in order |
| SeedaiMemory.SQLiteMemory.CommitOne | seedai_memory.py:90-108 | one loop pass is the item's commit, and it is counted exactly when it succeeds |
| SeedaiMemory.SQLiteMemory.SaveAll | seedai_memory.py:152-158 | the buffer is written to identity["staged_learning"] and nothing else changes |
| SeedaiMemory.SQLiteMemory.SaveConversationMemory | seedai_memory.py:171-176 | json.dumps(content) is stored under "conversation_<id>" and nothing else changes |
| AureliaMemory.Recent | seedai/aurelia_memory.py:97-103 | at most `limit` messages (all of them for a negative limit), the newest ones, oldest first |
| AureliaMemory.Memory.RecentMessages | seedai/aurelia_memory.py:97-103 | the newest `limit` messages in chronological order (all of them for a negative limit) |
| AureliaMemory.NewestReversed | seedai/aurelia_memory.py:98-103 | reversing the newest-first rows gives the last messages in chronological order |
| AureliaMemory.AddedIsMostRecent | seedai/aurelia_memory.py:90-103 | after add_message, the message is the last of recent_messages for any non-zero limit |
| AureliaMemory.FindFact | seedai/aurelia_memory.py:109-112 | the row holding the fact text, None when there is none; with fact texts UNIQUE it is the only one |
| AureliaMemory.UpsertFactSpec | seedai/aurelia_memory.py:106-126 | a known fact keeps its id and gets the new subject, last_seen and min(10, old + strength); a new one is appended with the given strength and the next id; fact texts stay unique and no other row changes |
| AureliaMemory.UpsertCapped | seedai/aurelia_memory.py:114 | a strengthened fact never exceeds 10 |
| AureliaMemory.RecallMembers | seedai/aurelia_memory.py:128-139 | at most `limit` facts, each the text of a row, of the subject when a non-empty one is given |
| AureliaMemory.Memory.RecallFacts | seedai/aurelia_memory.py:128-139 | at most `limit` texts, each the fact of a row of the table in the strength/last_seen order, of the subject when one is given |
| AureliaMemory.Memory.GetIdentity | seedai/aurelia_memory.py:148-151 | a value exactly when the identity table has the key, and then the stored row's value |
| AureliaMemory.RecallOrdered | seedai/aurelia_memory.py:131-136 | the rows come by strength, then last_seen, both descending |
| AureliaMemory.RecallComplete | seedai/aurelia_memory.py:128-139 | without a limit, every fact of the subject (every fact when none is given) is recalled |
| AureliaMemory.IdentityUpsertSpec | seedai/aurelia_memory.py:142-151 | after the upsert the key maps to the value, other keys keep theirs, and keys stay unique |
| AureliaMemory.Memory.constructor | seedai/aurelia_memory.py:72-80 | __init__ on a database that already holds rows keeps them |
| AureliaMemory.Memory.AddMessage | seedai/aurelia_memory.py:90-95 | the message is appended and its rowid returned; no other table changes |
| AureliaMemory.Memory.UpsertFact | seedai/aurelia_memory.py:106-126 | the facts table and the id returned are those of the upsert; no other table changes |
| AureliaMemory.Memory.SetIdentity | seedai/aurelia_memory.py:142-151 | get_identity(key) then gives the value, every other key its old value; no other table changes |
| AureliaMemory.Memory.AddUnknownWord | seedai/aurelia_memory.py:153-164 | the word is added when either INSERT runs, never over an existing row; only an error other than OperationalError from the first INSERT propagates |
| Reasoner.ExtractWords | seedai_reasoner.py:154-156 | one word per whitespace token of the stripped, lower-cased text |
| Reasoner.ExtractWordsSpec | seedai_reasoner.py:154-156 | each word is its token with the leading and trailing punctuation of ".,!?\"'()[]" removed, holds no space and neither starts nor ends with that punctuation |
| Reasoner.ExtractKeepsCleanWords | seedai_reasoner.py:156 | a token that neither starts nor ends with punctuation is kept as it is |
| Reasoner.MappedStable | seedai_reasoner.py:242-247 | a thread's conversation id is made once and then returned unchanged on later turns |
| Reasoner.MappedOthers | seedai_reasoner.py:242-247 | mapping one thread leaves every other thread's mapping as it was |
| Reasoner.UrlMatch | seedai_reasoner.py:262 | a match of https?://\S+ at the start is at least eight characters long |
| Reasoner.UrlMatchIsUrl | seedai_reasoner.py:262 | what the pattern matches is a URL: the scheme followed by a non-empty run of non-space characters |
| Reasoner.FindUrlsAreUrls | seedai_reasoner.py:262 | every URL found is a URL in that sense |
| Reasoner.FindUrls | seedai_reasoner.py:262 | the matches do not overlap and each is at least eight characters, so there are at most |text|/8 of them |
| Reasoner.FindUrlsJoin | seedai_reasoner.py:262 | URLs joined by spaces are found again, all of them and in order |
| Reasoner.NoKnownWords | seedai_reasoner.py:205-214 | with no known word, there are no known responses |
| Reasoner.KnownResponses | seedai_reasoner.py:205-214 | at most one response per word, and the only exception is AttributeError, from a missing memory method |
| Reasoner.ReflectFromMemory | seedai_reasoner.py:199-240 | raises only AttributeError (the voicebox error is caught); no known response gives the not-sure reply, and a raising lookup raises |
| Reasoner.KnownWordWithoutRelated | seedai_reasoner.py:206-207 | a known word on a memory without get_related_beliefs raises AttributeError |
| Reasoner.VoicePromptEmoji | seedai_reasoner.py:222 | the emoji in the voice prompt is the emotion's tone |
| Reasoner.ReflectUnknown | seedai_reasoner.py:199-238 | with no known word, reflect_from_memory answers "I'm not sure yet, but I'm still learning about that." |
| Reasoner.ToneOfOne | seedai_emotion_module.py:28-37 | one sentence is toned as the emoji, a space and the sentence |
| Reasoner.ToneAsWrittenLosesText | seedai_reasoner.py:341-351 | as written, toned[0] of the joined string is its first character: the reply is only the emoji (or a single space), the text is lost |
| Reasoner.ToneKeepsText | seedai_reasoner.py:341-351 | the corrected tone gives the emoji, a space, and the text with a comfort phrase in front for a heavy emotion when there are phrases |
| Reasoner.ApplyToneAsWritten | seedai_reasoner.py:341-351 | as written: fails exactly for a non-string text under a heavy emotion with comfort phrases, and otherwise returns a single character |
| Reasoner.ApplyTone | seedai_reasoner.py:341-351 | corrected: fails (TypeError) exactly for a non-string text under a heavy emotion with comfort phrases, and otherwise returns the tone, a space and the text |
| Reasoner.Answered | seedai_reasoner.py:113-117 | a memory answer ends the turn in the memory phase (or the error reply), with nothing staged; the reply is the corrected toned text (see Left out) |
| Reasoner.ConsultedSpec | seedai_reasoner.py:128-140 | the model's answer is used and staged exactly when the call is permitted and answers non-empty; the reply is then the answer toned by the corrected tone, where the source keeps only its first character (see Left out); otherwise the turn falls back |
| Reasoner.LlmNeedsPermission | seedai_reasoner.py:119-134 | the RAG phase never answers, and the model is used only when ask_permission and allow_llm are both set |
| Reasoner.TryBlock | seedai_reasoner.py:106-143 | a failing prescan or memory lookup gives the error reply; the RAG and family phases are never reached (the reply tone is the corrected one, see Left out) |
| Reasoner.Consulted | seedai_reasoner.py:125-141 | ends in the model, fallback or failed phase; the model phase and a staged draft need permission, and the draft is the stripped model answer (the reply tone is the corrected one, see Left out) |
| Reasoner.HitEndsTurn | seedai_reasoner.py:113-117 | a memory lookup that always answers ends the turn in the memory phase or with the error reply |
| Reasoner.LookupUnknown | seedai_reasoner.py:281-293 | with no conversation memory and no known word, the lookup answers with the not-sure reply |
| Reasoner.MemoryLookup | seedai_reasoner.py:281-293 | a truthy conversation memory is the answer; only AttributeError is raised; no answer exactly when the reflection is the empty string |
| Reasoner.MemoryPhaseFirst | seedai_reasoner.py:106-117 | then the turn answers in the memory phase with that reply toned by the corrected tone, where the source keeps only its first character (see Left out) |
| Reasoner.SqliteLookup | seedai_reasoner.py:281-293 | on SQLiteMemory the memory lookup never comes back empty |
| Reasoner.SqlitePrescan | seedai_reasoner.py:274-279 | on SQLiteMemory the emotion prescan succeeds exactly when the reaction is "curious"; otherwise it raises AttributeError, as update_emotion is missing |
| Reasoner.Prescan | seedai_reasoner.py:274-279 | a success is the state react moves to, "curious" always succeeds, and any other state on a memory without update_emotion raises AttributeError |
| Reasoner.SqliteMemoryTurns | seedai_reasoner.py:106-144 | on SQLiteMemory every turn ends in the memory phase or with the error reply, the error reply whenever the reaction is not "curious" |
| Reasoner.Reasoner.constructor | seedai_reasoner.py:14-23 | no threads mapped, no URLs queued, nothing staged, ask_permission set, the comfort phrases loaded |
| Reasoner.Reasoner.MapThread | seedai_reasoner.py:242-247 | the thread map and id are those of the mapping rule; nothing else changes |
| Reasoner.Reasoner.DetectAndEnqueueUrls | seedai_reasoner.py:260-266 | the URLs found are returned and appended to the queue; nothing else changes |
| Reasoner.Reasoner.HandleTurn | seedai_reasoner.py:92-147 | "/family" answers the family summary and changes nothing; any other input maps its thread, queues its URLs, and answers with the reply and phase of the pipeline (toned by the corrected tone, see Left out), staging the model's draft when one was used |
| Reasoner.AnswersOrdered | seedai_reasoner.py:173-181 | the answers come for questions asked, no more of them than questions |
| Reasoner.AskAll | seedai_reasoner.py:173-181 | the loop's result is the answers function; when it succeeds every question was asked and each cleaned answer fed to extract_unknown_words |
| Reasoner.ExploreConcept | seedai_reasoner.py:158-189 | no topic or a non-string gives "I need a topic to think about."; a known topic "I already remember ..."; otherwise the five questions are asked, an error propagates, and the result is what was learned |
| Reasoner.ExploreWithoutQueueLearn | seedai_reasoner.py:183-185 | with answers and a memory without queue_learn, explore_concept raises AttributeError |
| Reasoner.AnswersPrefixErr | seedai_reasoner.py:174-176 | once a question raises, the later questions are not asked |
| Validate.Ascii | scripts/seedai_validate.py:54 | str.encode() of ASCII text: one byte per character, with its code |
| Validate.TruncateAsWritten | scripts/seedai_validate.py:53-54 | as written, bytes that fit are returned unchanged, and longer ones raise AttributeError (bytes has no encode) |
| Validate.Truncate | scripts/seedai_validate.py:53-54 | the corrected truncate: bytes that fit are returned unchanged; longer ones keep exactly their first n bytes followed by the marker "\n\n[...truncated...]\n" |
| Validate.TruncateBound | scripts/seedai_validate.py:53-54 | the result never exceeds n bytes plus the marker |
| Validate.TruncateIdempotent | scripts/seedai_validate.py:53-54 | truncating twice to the same size is truncating once |
| Validate.LineLen | scripts/seedai_validate.py:58 | the first line runs up to the first line break |
| Validate.SplitLines | scripts/seedai_validate.py:58 | str.splitlines(): no line holds a line break, and only the empty text has no lines |
| Validate.KeyLen | scripts/seedai_validate.py:60 | the key of split("=", 1) ends at the first '=' |
| Validate.RedactLine | scripts/seedai_validate.py:59-65 | a line without '=' and a line whose key names no secret are kept; a line whose upper-cased key contains a secret name keeps its key and '=' and gets "***redacted***" as its value |
| Validate.RedactAll | scripts/seedai_validate.py:57-65 | each line redacted on its own, in order |
| Validate.RedactEnv | scripts/seedai_validate.py:56-66 | the loop gives the redacted lines joined by newlines |
| Validate.RedactLineNoBreak | scripts/seedai_validate.py:59-65 | redacting a line never introduces a line break |
| Validate.RedactEnvLines | scripts/seedai_validate.py:56-66 | for a non-empty text, the output's lines are exactly the input's lines each redacted |
| Validate.RedactWithoutAssignments | scripts/seedai_validate.py:56-66 | a text without '=' keeps all of its lines |
| Validate.RedactThenTruncate | scripts/seedai_validate.py:99-104 | a .env file is redacted first and then truncated: a redacted text that fits is archived whole, a longer one cut to max_bytes followed by the marker (with the corrected truncate) |
| Validate.LongFileDroppedAsWritten | scripts/seedai_validate.py:97-109 | as written, a file longer than its limit raises and goes to collect_errors; the corrected truncate archives max_bytes plus the marker |
| Validate.LongLogAsWritten | scripts/seedai_validate.py:97-109 | a 40-byte gateway.log under a 32-byte limit is dropped as written and archived with the correction |
| Validate.Report.constructor | scripts/seedai_validate.py:126-137 | the archive, the collected files and the errors start empty |
| Validate.ArchivedOrFailed | scripts/seedai_validate.py:97-109 | every file visited is either archived or recorded as an error, never both |
| Validate.StepFile | scripts/seedai_validate.py:97-109 | one file is archived with its prepared bytes (with the corrected truncate) when it succeeds and recorded with its error otherwise |
| Validate.AfterStep | scripts/seedai_validate.py:97-109 | one more file updates the report by that step, and the byte count grows by the size of what was archived (with the corrected truncate) |
| Validate.CollectFile | scripts/seedai_validate.py:97-109 | the report after one file is the logged step, and the bytes added are the archived size (0 on an error), with the corrected truncate |
| Validate.CollectPattern | scripts/seedai_validate.py:96-109 | the loop over one pattern's files logs each file in order and adds their archived sizes (with the corrected truncate) |
| Validate.CollectFiles | scripts/seedai_validate.py:93-110 | collect_files logs every file of every pattern in order, and returns the total of the archived bytes (with the corrected truncate) |
| Validate.AnySeedaiIff | scripts/seedai_validate.py:151 | the any() succeeds exactly when an object with id "seedai" comes before any non-object, and is false exactly when every item is an object without it |
| Validate.ModelOk | scripts/seedai_validate.py:151 | a passing models check has status 200 and an object with "data" |
| Validate.ModelOkIff | scripts/seedai_validate.py:151 | the models check passes exactly when the status is 200, data is an object whose "data" is a list, and an object with id "seedai" comes before any non-object |
| Validate.ChatOk | scripts/seedai_validate.py:160 | the chat check passes exactly when the status is 200 and the object is "chat.completion" |
| UseChat.TitleOf | openweb-ui-frontend/src/state/useChat.ts:68-70 | a message of at most 50 characters is its own title; a longer one gives its first 50 characters followed by "..." |
| UseChat.AddedTo | openweb-ui-frontend/src/state/useChat.ts:62-74 | the map keeps the number and order of the conversations; those with the active id get the message, the others stay as they were |
| UseChat.Finalized | openweb-ui-frontend/src/state/useChat.ts:90-95 | the active conversations gain exactly one assistant message holding the text and keep their id, title and creation time; every conversation with another id is unchanged |
| UseChat.AddMessageSpec | openweb-ui-frontend/src/state/useChat.ts:58-75 | the active conversation keeps its id and creation time, gains the message at the end, and is retitled only by a first user message; every other conversation is unchanged |
| UseChat.TitleBound | openweb-ui-frontend/src/state/useChat.ts:69 | a title is at most 53 characters, and its first 50 characters are the start of the message |
| UseChat.WithoutSpec | openweb-ui-frontend/src/state/useChat.ts:109 | after the filter no conversation has the deleted id, every conversation with another id remains, and nothing new appears |
| UseChat.WithoutAbsent | openweb-ui-frontend/src/state/useChat.ts:109 | deleting an id no conversation has leaves the list as it was |
| UseChat.CreateThenDelete | openweb-ui-frontend/src/state/useChat.ts:45-112 | creating a conversation with a new id and deleting that id gives back the earlier list |
| UseChat.ChatStore.constructor | openweb-ui-frontend/src/state/useChat.ts:28-41 | the store starts in defaultState: no conversations, no active id, no models, not loading, no error, an empty stream buffer and not streaming |
| UseChat.ChatStore.Partialize | openweb-ui-frontend/src/state/useChat.ts:143-146 | only the conversations and the active id are persisted |
| UseChat.ChatStore.SetActiveConversation | openweb-ui-frontend/src/state/useChat.ts:43 | the given id becomes the active one, and nothing else changes |
| UseChat.ChatStore.CreateConversation | openweb-ui-frontend/src/state/useChat.ts:45-56 | an empty "New Chat" conversation stamped with the current time goes in front of the others, which are kept in order, and becomes active |
| UseChat.ChatStore.AddMessage | openweb-ui-frontend/src/state/useChat.ts:58-75 | with no active id (null or empty) nothing changes; otherwise the conversations become AddedTo of the active id |
| UseChat.ChatStore.UpdateStreamingMessage | openweb-ui-frontend/src/state/useChat.ts:77-79 | the buffer is replaced by the given text, not added to, and streaming is on |
| UseChat.ChatStore.FinalizeStreamingMessage | openweb-ui-frontend/src/state/useChat.ts:81-99 | with no active id or an empty buffer nothing changes; otherwise the buffer becomes an assistant message of the active conversation, the buffer is emptied and streaming stops |
| UseChat.ChatStore.SetModels | openweb-ui-frontend/src/state/useChat.ts:101 | the models list is replaced |
| UseChat.ChatStore.SetLoading | openweb-ui-frontend/src/state/useChat.ts:103 | the loading flag is set |
| UseChat.ChatStore.SetError | openweb-ui-frontend/src/state/useChat.ts:105 | the error is set or cleared |
| UseChat.ChatStore.DeleteConversation | openweb-ui-frontend/src/state/useChat.ts:107-112 | the loop keeps exactly the conversations with another id, in order, and clears the active id only when it was the deleted one |
| UseChat.ChatStore.ClearConversations | openweb-ui-frontend/src/state/useChat.ts:114 | every field goes back to defaultState |
| Sse.DispatchNoDone | openweb-ui-frontend/src/lib/sse.ts:59-72 | lines without [DONE] deliver one onMessage per data line, in order, and the loop carries on |
| Sse.DispatchFirstDone | openweb-ui-frontend/src/lib/sse.ts:59-72 | at the first [DONE] the data lines before it are delivered, then onComplete, and nothing after it |
| Sse.DispatchSpec | openweb-ui-frontend/src/lib/sse.ts:59-72 | with the trimmed text after "data:" as payload, lines without [DONE] deliver every data payload in order; event:, id: and other lines deliver nothing |
| Sse.DispatchStopsAtDone | openweb-ui-frontend/src/lib/sse.ts:60-65 | a "data: [DONE]" line calls onComplete after the payloads before it and ends connect |
| Sse.DispatchWithAppend | openweb-ui-frontend/src/lib/sse.ts:59-72 | handling two runs of lines one after the other is handling them together, and nothing after [DONE] is handled |
| Sse.DispatchAppend | openweb-ui-frontend/src/lib/sse.ts:59-72 | the same for the "data:" payload |
| Sse.CutSpec | openweb-ui-frontend/src/lib/sse.ts:55-57 | split and pop lose no text: the complete lines and the kept buffer, joined by "\n", are the old buffer plus the chunk, and no line or buffer holds a "\n" |
| Sse.SplitOnNoSep | openweb-ui-frontend/src/lib/sse.ts:56 | no piece of a split holds the separator |
| Sse.RunEvents | openweb-ui-frontend/src/lib/sse.ts:51-73 | the callbacks of the reading loop over any chunking are those of dispatching all the complete lines at once |
| Sse.RunText | openweb-ui-frontend/src/lib/sse.ts:51-73 | until [DONE], the lines handled and the buffer, joined by "\n", are all the text received |
| Sse.RunSpec | openweb-ui-frontend/src/lib/sse.ts:51-73 | how the text is cut into chunks does not change the callbacks, and until [DONE] no text is lost |
| Sse.DoneIsFinal | openweb-ui-frontend/src/lib/sse.ts:62-65 | after [DONE] further chunks are never read |
| Sse.DelaysFromFresh | openweb-ui-frontend/src/lib/sse.ts:82-87 | from a fresh client, failures in a row schedule retries after 1000, 2000 and 4000 ms and none after that |
| Sse.NoMoreRetries | openweb-ui-frontend/src/lib/sse.ts:82 | once three retries were counted, a failure schedules nothing |
| Sse.SSEClient.constructor | openweb-ui-frontend/src/lib/sse.ts:10-11 | no controller and no retries yet |
| Sse.SSEClient.Disconnect | openweb-ui-frontend/src/lib/sse.ts:91-94 | the controller is dropped, so the client is no longer connected |
| Sse.SSEClient.IsConnected | openweb-ui-frontend/src/lib/sse.ts:96-98 | a controller exists and has not been aborted; the constructor and Disconnect leave it false |
| Sse.SSEClient.Fail | openweb-ui-frontend/src/lib/sse.ts:79-87 | onError receives the failure; below three retries the count goes up by one and a retry is scheduled after 1000 * 2^(count - 1) ms, otherwise nothing is scheduled |
| Sse.SSEClient.Connect | openweb-ui-frontend/src/lib/sse.ts:20-89 | an abort reports nothing and schedules nothing; a fetch failure, a status that is not ok and an unreadable body each reach onError and the retry; a readable stream delivers the loop's callbacks, ends at [DONE] without touching the retry count, resets it when the reader ends or the loop sees the abort, and reaches onError and the retry when a read fails |
| Sse.DispatchSnoc | openweb-ui-frontend/src/lib/sse.ts:59-72 | handling one more line adds its onMessage, or onComplete and stops at [DONE] |
| Sse.DispatchPrefixDone | openweb-ui-frontend/src/lib/sse.ts:62-65 | lines after a [DONE] are never handled |
| Sse.DispatchLines | openweb-ui-frontend/src/lib/sse.ts:59-72 | the for loop over the lines makes exactly the callbacks DispatchWith describes |
| Sse.ReadStream | openweb-ui-frontend/src/lib/sse.ts:48-73 | the while loop over the chunks makes exactly the callbacks of the reading loop and reports whether [DONE] was seen |
| Sse.TakeDoneRun | openweb-ui-frontend/src/lib/sse.ts:62-65 | once [DONE] is seen in the first chunks, the rest change nothing |
| Sse.DoneEndsWithComplete | openweb-ui-frontend/src/lib/sse.ts:62-65 | a stream that saw [DONE] ends with onComplete |
| Sse.DoneHasComplete | openweb-ui-frontend/src/lib/sse.ts:62-65 | a run of lines that saw [DONE] ends with onComplete |
| Sse.RunningSpec | openweb-ui-frontend/src/lib/sse.ts:125-128 | onChunk is called once per piece, and its k-th text is the first k + 1 pieces joined |
| Sse.ChatStream | openweb-ui-frontend/src/lib/sse.ts:118-132 | the closure's loop ends with fullContent the concatenation of every truthy choices[0].delta.content, in order, and onChunk received the running concatenations |
| Sse.PiecesSnoc | openweb-ui-frontend/src/lib/sse.ts:122-131 | one more payload adds its content when it is truthy and nothing otherwise |
| Sse.RunningSnoc | openweb-ui-frontend/src/lib/sse.ts:126-127 | one more piece extends fullContent by it and passes the new fullContent to onChunk |
| Sse.SumPrefix | openweb-ui-frontend/src/lib/sse.ts:126 | fullContent only grows: every earlier value is a prefix of the final one |
| Sse.UnparsableSkipped | openweb-ui-frontend/src/lib/sse.ts:129-131 | a payload that JSON.parse rejects adds nothing |
| Sse.DeltaAppended | openweb-ui-frontend/src/lib/sse.ts:123-127 | a payload {"choices":[{"delta":{"content":text}}]} with non-empty text appends that text to fullContent |
| Api.Decimal | openweb-ui-frontend/src/lib/api.ts:29 | a status is written as a non-empty run of decimal digits that denotes it, without a leading zero |
| Api.ApiRequest | openweb-ui-frontend/src/lib/api.ts:13-33 | an ApiError is raised exactly when the response is not OK, and it carries the status and the message "HTTP <status>: <statusText>"; a value is returned exactly when the response is OK and its body is JSON, and that value is the body |
| Api.GuardedSpec | openweb-ui-frontend/src/lib/api.ts:59-64 | after the catch block only ApiErrors escape: an ApiError and every result pass through unchanged, any other exception becomes ApiError(0, "Network error"), and guarding twice is guarding once |
| Api.ChatErrors | openweb-ui-frontend/src/lib/api.ts:67-93 | chat gives ApiError(0, "Network error") for a failed fetch or a body that is not JSON, the HTTP error for a response that is not OK, and the body otherwise; embeddings behaves the same, and ackUnknownWord fails exactly when chat would |
| Api.Chat | openweb-ui-frontend/src/lib/api.ts:67-79 | succeeds exactly on an OK response with a JSON body, which it returns; a response that is not OK raises its own ApiError("HTTP <status>: <statusText>"), and every other failure the network error ApiError(0, "Network error") |
| Api.Embeddings | openweb-ui-frontend/src/lib/api.ts:81-93 | behaves exactly as chat on every response |
| Api.UploadFile | openweb-ui-frontend/src/lib/api.ts:95-112 | succeeds exactly on an OK response with a JSON body; a response that is not OK raises its ApiError, and a failed fetch escapes as its own exception, since there is no catch |
| Api.GetUnknownWords | openweb-ui-frontend/src/lib/api.ts:114-128 | raises only ApiErrors; a 404 gives [], any other non-OK status raises its ApiError, and an OK object body gives its "data" field |
| Api.AckUnknownWord | openweb-ui-frontend/src/lib/api.ts:130-141 | succeeds exactly on an OK response with a JSON body and raises only ApiErrors, a non-OK status its own |
| Api.Search | openweb-ui-frontend/src/lib/api.ts:143-159 | raises only ApiErrors; a 404 gives null, any other non-OK status raises its ApiError, and an OK body is returned as is |
| Api.UploadFileUnguarded | openweb-ui-frontend/src/lib/api.ts:95-112 | uploadFile has apiRequest's status check and no catch block, so a failed fetch reaches the caller as raised |
| Api.NotFoundTolerated | openweb-ui-frontend/src/lib/api.ts:114-159 | a 404 gives [] from getUnknownWords and null from search, while chat still raises it |
| Api.OtherFailuresRethrown | openweb-ui-frontend/src/lib/api.ts:114-159 | any other HTTP error is rethrown with its status, a failed fetch becomes the network error, and neither call ever raises a 404 |
| Api.UnknownWordsData | openweb-ui-frontend/src/lib/api.ts:116-117 | an OK object body gives its "data" field (undefined when missing); a null body, where `.data` throws, gives the network error |
| Api.SkipSpace | openweb-ui-frontend/src/lib/api.ts:48 | `\s*` consumes exactly the whitespace run starting at the index |
| Api.SkipValue | openweb-ui-frontend/src/lib/api.ts:48 | the greedy group consumes exactly the run of characters that are not quotes |
| Api.MatchAt | openweb-ui-frontend/src/lib/api.ts:48-51 | a match attempt captures a non-empty value without any quote character |
| Api.First | openweb-ui-frontend/src/lib/api.ts:48-51 | the search finds a successful attempt in the range, or shows that every attempt there fails |
| Api.FirstLeftmost | openweb-ui-frontend/src/lib/api.ts:48-51 | String.prototype.match returns the capture of the leftmost successful attempt |
| Api.EntryPlaced | openweb-ui-frontend/src/lib/api.ts:48 | a `'key': 'value'` entry written into a text sits where its parts are expected |
| Api.MatchAtEntry | openweb-ui-frontend/src/lib/api.ts:48 | at a dict entry whose value has no quote, the pattern captures that value |
| Api.EntryFound | openweb-ui-frontend/src/lib/api.ts:48-51 | a text holding such an entry, with no quote before it, matches with the value as capture |
| Api.SkipValueOver | openweb-ui-frontend/src/lib/api.ts:48 | the value run ends at the first quote |
| Api.Or | openweb-ui-frontend/src/lib/api.ts:50-55 | JavaScript's logical or gives a when it is defined and truthy, and b otherwise |
| Api.ListOf | openweb-ui-frontend/src/lib/api.ts:40-43 | null has no list (`response.data` throws); a non-empty list is the response array itself or its "data" or "models" array |
| Api.ListShapes | openweb-ui-frontend/src/lib/api.ts:39-43 | the three accepted shapes give their list, "data" wins over "models", and any other object gives [] |
| Api.NormalizeAll | openweb-ui-frontend/src/lib/api.ts:45-57 | one normalised model per element, in order |
| Api.GetModelsSpec | openweb-ui-frontend/src/lib/api.ts:36-65 | getModels succeeds exactly when the response is OK with a non-null JSON body, and then returns one normalised model per list element in order; it raises only ApiErrors: the HTTP error for a response that is not OK, the network error for a failed fetch or a body that is missing or null |
| Api.GetModels | openweb-ui-frontend/src/lib/api.ts:36-65 | raises only ApiErrors (a non-OK status its own); a success comes from an OK body holding a list shape and has one model per element of that list |
| Api.NormalizeOther | openweb-ui-frontend/src/lib/api.ts:55-56 | an object's truthy id is its id, and an object with neither id nor name uses String(m); an object without owned_by or owner is owned by "library"; null, booleans and numbers become String(m) owned by "unknown"; "unknown" otherwise arises only from a string's own owned_by |
| Api.FromStringSpec | openweb-ui-frontend/src/lib/api.ts:46-53 | a string holding an `'id': 'v'` entry gets id v; with no match the whole string is the id, and with no owned_by match the owner is "library" |
| Api.JsonStyleFallback | openweb-ui-frontend/src/lib/api.ts:48-50 | a JSON-style value that starts with an apostrophe defeats the Python-style pattern at that entry, and the JSON-style pattern still captures it |
| Api.PyStyleStopsAtQuote | openweb-ui-frontend/src/lib/api.ts:48 | the Python-style pattern fails on a value that begins with a quote character |

## Left out

- Concurrency is not modelled. This covers the locks of memory_manager.py, the background learning and scanning threads of seedai_memory.py and seedai_reasoner.py, and the thought engine.
- The SQLite engine internals are not modelled: PRAGMAs, indexes, FTS5 tables, their triggers and relevance ranking. The search functions model only the LIKE fallback.
- ORDER BY timestamp DESC is modelled as newest-inserted first. This assumes the clock never goes backwards, and SQL leaves ties unordered. SeedaiStorage.ListConversations relies on the same assumption, since REPLACE moves a conversation's row to the end.
- Floating point is idealised as `real`. This covers fact strengths capped at 10.0 and emotion intensities capped at 1.0.
- Case mapping, `\w` and str.isalnum are restricted to ASCII. `\s`, str.isspace and JavaScript's whitespace follow the full Unicode whitespace sets.
- Strings are sequences of code points. JavaScript's UTF-16 lengths are not modelled.
- json.loads, json.dumps, JSON.parse, str() and String() of non-strings, urlparse, TextDecoder, UTF-8 encode/decode, and dict key order are function parameters. Their own behaviour is not verified.
- The HTTP fetch, the HTML parser of crawl_url and the language model are parameters. The filesystem and its atomic writes are also parameters: a file is given as what reading it produced.
- The retried SSE connect scheduled by setTimeout is a later call of SSEClient.Connect. The model records the delay, not the timer.
- apiGet and apiPost are apiRequest itself and have no members of their own.
- These parts of memory_manager.py are not part of this model: generate_code and list_generated_code (HTTP, filesystem and clock), and the FTS search path. Neither are the route, GUI, CLI, voice, migration and settings modules, seedai_learning.py, seedai_llm.py or the crawler script.
- Reasoner.HandleTurn takes the memory as a record of optional operations. It follows the branch order of handle_turn, but the memory's own internals are not part of that record.
- MemoryBootstrap.LoadBootstrapMessages uses the corrected trimming loop (ShrinkAll, computed by ShrinkToFit). The as-written loop is TrimLoop, which is bounded by fuel and can be shown to run forever (see Findings).
- MemoryManager.MemoryManager.CrawlUrl: the fetch is a function of the url, so every call that @with_retry repeats sees the same page. A page that changes between retries is not modelled.
- Reasoner.HandleTurn (with TryBlock, Answered and Consulted) tones every reply with the corrected ApplyTone. As written, _apply_emotion_tone returns toned[0], so the reply is its first character; ApplyToneAsWritten and ToneAsWrittenLosesText give that behaviour (see Findings).
- Answered: its reply is the corrected toned text, not the first character the source keeps (see the Reasoner.HandleTurn line).
- ConsultedSpec: the model's reply it states is the corrected toned answer, not the first character the source keeps (see the Reasoner.HandleTurn line).
- MemoryPhaseFirst: the memory-phase reply it states is the corrected toned text, not the first character the source keeps (see the Reasoner.HandleTurn line).
- Grammar.Grammar.ParseSentence and Grammar.Grammar.IsValidSentence use the tokenizer with the pattern escaped once. The as-written tokenizer is Grammar.Tokenize (see Findings).
- Validate.CollectFiles archives with the corrected truncate. Validate.OutcomeAsWritten and Validate.LongFileDroppedAsWritten give the behaviour as written.
- Validate.RedactThenTruncate: archives with the corrected truncate as well; as written a file over its limit raises AttributeError instead.
- Validate.StepFile: archives with the corrected truncate as well; as written a file over its limit raises AttributeError instead.
- Validate.AfterStep: archives with the corrected truncate as well; as written a file over its limit raises AttributeError instead.
- Validate.CollectFile: archives with the corrected truncate as well; as written a file over its limit raises AttributeError instead.
- Validate.CollectPattern: archives with the corrected truncate as well; as written a file over its limit raises AttributeError instead.

## Findings

| source | as written | input that shows it | evidently intended | confidence | as-written member | corrected member |
|---|---|---|---|---|---|---|
| scripts/seedai_validate.py:53-54 | the marker is b"...".encode(), and bytes have no encode method, so truncate raises AttributeError whenever the data is longer than n; collect_files then records the file as an error and archives nothing | a 40-byte gateway.log with max_bytes 32 | the first n bytes followed by the marker | high, not executed | Validate.LongLogAsWritten | Validate.Truncate |
| seedai_reasoner.py:341-351 | the tone helper returns a string and the reply is toned[0], its first character | any reply text with emotion "happy" gives only the emoji | the whole toned text: emoji, space, reply | high, not executed | Reasoner.ToneAsWrittenLosesText | Reasoner.ToneKeepsText |
| grammar.py:33-36 | r"\\b\\w+\\b" in a raw string matches a literal backslash, 'b', backslash, w's, backslash, 'b', so ordinary sentences have no tokens | "the cat runs" with cat a noun and runs a verb: no tokens, not valid | the word pattern \b\w+\b | high, not executed | Grammar.CatRunsAsWritten | Grammar.CatRunsIntended |
| gateway/memory_bootstrap.py:119-133 | a longest message of 101 to 1000 characters is "cut" to its last 1000 characters, which leaves it unchanged, so the while True loop never ends | one 200-character persona with max_chars 150 | every pass shortens or removes a message, and the loop ends within budget | high, not executed | MemoryBootstrap.StuckPersona | MemoryBootstrap.ShrinkToFit |
