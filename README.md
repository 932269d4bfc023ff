# booktool core in Dafny

booktool turns a long Chinese novel into structured material for adaptation.
It cuts the text into chapter chunks, or into fixed-size windows when it finds no chapter heading.
It keeps a memory of every character across chunks and indexes character facts with a character-level TF-IDF model.
It asks a language model for characters, scenes and storyboard shots, falling back to deterministic defaults when the answer is unusable.
An HTTP service runs the whole process in the background and tracks each upload in an in-memory task table.

This project models the deterministic core of that system:

- the novel reader: chapter-heading recognition, the Chinese-numeral parser, chapter chunks, the fixed-size split and the context window;
- character memories, their merge, the memory bank and its checkpoint document;
- the TF-IDF vectorizer, cosine similarity, the per-character fragment store with its refit flag, query search, character ranking and the capped digest;
- the vector memory bank that builds prompt context;
- the chunking pipeline;
- the fallbacks and field defaults of the script and storyboard generators;
- the retry policy of the chat client, the brace-slice step of response parsing and the defaults of extracted characters;
- the `TaskStore` of the HTTP service, the status decision of its result endpoint and its upload file-name check.

Python's stateful objects become classes whose methods are proved against specification functions.
Those are `NovelReader`, `MemoryBank`, `ChunkingPipeline`, `SimpleTfidfVectorizer`, `CharacterMemoryStore`, `VectorMemoryBank` and `TaskStore`.
Python dictionaries whose iteration order matters are modelled as insertion-ordered maps (`OrderedMaps.ODict`).
Python's stable `list.sort` is a stable insertion sort (`StableSort.SortBy`).
The natural logarithm and the square root are function parameters, so only structural facts about them are proved.
A model reply is passed in already parsed, as a record whose optional fields stand for missing keys.

Files: `common.dfy` (string helpers), `ordered_maps.dfy`, `stable_sort.dfy`, `models.dfy` (records), `numerals.dfy`, `chapter_patterns.dfy`, `reader.dfy`, `memory.dfy`, `pipeline.dfy`, `tfidf.dfy`, `memory_store.dfy`, `vector_bank.dfy`, `script.dfy`, `storyboard.dfy`, `extractor.dfy`, `api.dfy`.

## Model

| member | source | states |
|---|---|---|
| ChineseNumerals.Numeral | chunking_engine.py:105-109 | the numeral table gives only the values 0-10, 100, 1000 and 10000 |
| ChineseNumerals.DecimalOfNatToString | chunking_engine.py:144-146 | reading the decimal spelling of n as digits gives n back |
| ChineseNumerals.ChineseToIntAsWritten | chunking_engine.py:139-167 | the loop as written computes the as-written right-to-left scan value (0 for "", int(s) for digits, at least 1 otherwise) |
| ChineseNumerals.ChineseToInt | chunking_engine.py:139-167 | the corrected loop, in which a unit multiplies the digit before it, computes the corrected scan value |
| ChineseNumerals.NumeralValueOfChinese | chunking_engine.py:139-167 | the corrected parser reads the standard Chinese spelling of every n in 1..9999 back as n |
| ChineseNumerals.DigitsRoundTrip | chunking_engine.py:144-146 | both parsers read the decimal spelling of any n as n |
| ChineseNumerals.AtLeastOne | chunking_engine.py:166-167 | any non-empty, non-digit string parses to at least 1 under both parsers |
| ChineseNumerals.AsWrittenBelowTwenty | chunking_engine.py:153-167 | the parser as written is right for 1..19 ("一", "三", "十", "十五") |
| ChineseNumerals.AsWrittenTwenty | chunking_engine.py:153-167 | "二十" is 20 by the standard spelling, the parser as written gives 12 and the corrected one 20 |
| ChapterPatterns.MatchAt | chunking_engine.py:98-102 | a heading match at i starts at i, ends inside the text and captures a non-empty ordinal |
| ChapterPatterns.FindAll | chunking_engine.py:197-199 | finditer's matches lie inside the text in order and do not overlap |
| ChapterPatterns.AllHits | chunking_engine.py:196-214 | every match of the three patterns has a non-empty captured ordinal inside the text |
| ChapterPatterns.NoColonInHits | chunking_engine.py:244-248 | no matched heading text contains ':', so the title regex never matches and the title is always the stripped matched text |
| ChapterPatterns.FullWidthColonIsNoHeading | chunking_engine.py:99 | "第一章：开始" is not a chapter heading (the pattern needs a space after 章) while "第一章 开始" is, with ordinal "一" |
| Reader.Candidates | chunking_engine.py:196-214 | one boundary per match, at the match start, in pattern order |
| Reader.Spaced | chunking_engine.py:220-225 | kept boundaries come from the input, each more than 50 characters after the previous kept one, and the first qualifying one is kept |
| Reader.KeptBoundaries | chunking_engine.py:216-225 | the kept boundary positions lie inside the text and strictly increase |
| Reader.ChunkEnd | chunking_engine.py:234-238 | a chunk ends after its start and no later than the end of the text |
| Reader.HeadingChunksShape | chunking_engine.py:233-258 | chunk k starts at boundary k, ends where chunk k+1 starts (the last at the end of the text), holds the stripped slice with its length as word count, and carries the boundary's number and stripped title |
| Reader.FallbackIffNoHeading | chunking_engine.py:227-230 | no boundary survives exactly when no heading matches, and then the split is the fixed-size split |
| Reader.SeparatorCut | chunking_engine.py:272-277 | a sentence-end cut keeps the window non-empty and never extends it |
| Reader.WindowEnd | chunking_engine.py:269-277 | a window is non-empty and at most max_chunk_size long |
| Reader.DoubleNewlineNeverCuts | chunking_engine.py:273 | the separator "。\n\n" never decides the cut, because "。\n" is tried first |
| Reader.CutBeyondHalf | chunking_engine.py:274-276 | a full window is either kept whole or cut after more than half of max_chunk_size plus the separator |
| Reader.NextStart | chunking_engine.py:292 | the corrected next start moves forward and, with a non-negative overlap, not past the window end |
| Reader.NextStartAgrees | chunking_engine.py:292 | wherever the start as written moves forward, the corrected start equals it |
| Reader.AsWrittenAdvances | chunking_engine.py:292 | the start as written moves forward when overlap_size < max_chunk_size and overlap_size <= max_chunk_size // 2 + 2 |
| Reader.AsWrittenStalls | chunking_engine.py:268-292 | a 1000-character text with "。\n" at offset 498, max 900 and overlap 500 sends the start as written back to 0, where the corrected start moves on to 500 |
| Reader.SizeChunksShape | chunking_engine.py:262-294 | every fixed-size chunk is a non-blank stripped window of at most max_chunk_size characters; chunks are numbered 1, 2, 3… with blank windows skipped, titled "第n部分", and start strictly later one after another |
| Reader.SizeChunksCover | chunking_engine.py:262-294 | every non-whitespace character of the text lies in some fixed-size chunk's window |
| Reader.Contents | chunking_engine.py:313-316 | the contents of the existing chunks with index in the range, in order |
| Reader.ContextWindowHolds | chunking_engine.py:296-318 | the context window of chunk i contains chunk i's content and, when asked for, the previous chunk's |
| Reader.TitleIndex | chunking_engine.py:174-180 | the index found is the first line whose stripped form qualifies as a title, or -1 when none does |
| Reader.ChapterTitleFirst | chunking_engine.py:169-181 | the title is the first qualifying stripped line of the 200-character window, and is None exactly when no line qualifies |
| Reader.ChapterTitleIsOneLine | chunking_engine.py:179-180 | a found title is a single line of 3 to 99 characters that is not a heading |
| Reader.NovelReader.constructor | chunking_engine.py:111-121 | a reader stores its sizes and starts without chunks |
| Reader.NovelReader.SplitByChapters | chunking_engine.py:183-260 | the chunks returned and stored are the chapter split of the text |
| Reader.NovelReader.CollectCandidates | chunking_engine.py:196-214 | the loop collects one boundary per match |
| Reader.NovelReader.Dedup | chunking_engine.py:220-225 | the loop keeps exactly the spaced boundaries, starting from last position -100 |
| Reader.NovelReader.BuildChunks | chunking_engine.py:233-258 | the loop builds exactly the heading chunks |
| Reader.NovelReader.SplitBySize | chunking_engine.py:262-294 | the loop computes the fixed-size split, with the corrected next start |
| Reader.NovelReader.CutWindow | chunking_engine.py:269-277 | the separator loop computes the window end |
| Reader.NovelReader.GetContextWindow | chunking_engine.py:296-318 | the loop computes the context window ("" without chunks, else the "\n\n"-join of the existing chunks from max(0, i-p) to i) |
| Reader.NovelReader.FindChapterTitle | chunking_engine.py:169-181 | the loop returns the chapter title |
| Memory.AppendUniqueFacts | chunking_engine.py:61-73 | the receiver's list is kept as a prefix, duplicates included; the result holds exactly the values of both lists; what is appended is new to the receiver, holds no value twice, and is exactly the new values of the incoming list at their first occurrence, in incoming order |
| Memory.AppendUniqueInOrder | chunking_engine.py:61-73 | the merged list is the receiver's list followed by the incoming values not in it, each at its first occurrence, in incoming order |
| Memory.AppendUniqueKnown | chunking_engine.py:61-73 | merging in only known values leaves the list unchanged |
| Memory.AppendNew | chunking_engine.py:61-73 | the append loop computes the order-preserving deduplicating append |
| Memory.Merge | chunking_engine.py:45-79 | the merge keeps the receiver's id and name and takes the minimum first chapter, the maximum last chapter and the sum of mentions; the loops compute the specified merge |
| Memory.MergeSelf | chunking_engine.py:45-79 | merging a memory with itself keeps the deduplicated lists, doubles the fragment lists and the mention count |
| Memory.Dedup | chunking_engine.py:87-88 | the result has the same elements as the input, each once (the last occurrence of each is kept) |
| Memory.ToCharacterFacts | chunking_engine.py:81-91 | the character keeps id and name, its description contains every description, traits and goals hold the same elements without repeats, and background and appearance are None exactly when there are no fragments |
| Memory.ContextPromptEmptyIff | chunking_engine.py:376-387 | the prompt is "" exactly when there are no memories, no relationships and no plot points |
| Memory.NamesInPrompt | chunking_engine.py:350-387 | the context prompt names every stored character |
| Memory.LoadEntries | chunking_engine.py:420-432 | loading entries keeps the ordered map well formed |
| Memory.LoadDoc | chunking_engine.py:412-434 | loading a document keeps the ordered map well formed |
| Memory.LoadEntriesFrame | chunking_engine.py:420-432 | loading touches only the ids the document lists |
| Memory.LoadEntriesStored | chunking_engine.py:420-432 | a completed load stores each listed entry under its key, with missing lists empty and missing counters 0 |
| Memory.LoadEntriesFails | chunking_engine.py:422-423 | a load that stops has met an entry without character_id or name |
| Memory.LoadDocFacts | chunking_engine.py:412-434 | a missing file changes nothing; a completed load replaces the global context wholesale (empty by default); a stopped load keeps it; memories the document does not list are kept |
| Memory.SavedEntries | chunking_engine.py:391-406 | the saved entries form a well-formed ordered map |
| Memory.SaveLoadRoundTrip | chunking_engine.py:389-434 | loading the saved document into an empty bank gives back every memory with all ten fields, in order, and the global context |
| Memory.AddMemory | chunking_engine.py:332-340 | adding a memory keeps the bank well formed |
| Memory.AddMemoryEffect | chunking_engine.py:332-340 | an unseen id is stored as given and appended; a seen id is replaced in place by the merge; every other id is untouched |
| Memory.MemoryBank.constructor | chunking_engine.py:324-330 | a new bank is empty, with empty location, relationship and plot-point lists |
| Memory.MemoryBank.AddCharacterMemory | chunking_engine.py:332-340 | the bank becomes the insert-or-merge of the memory |
| Memory.MemoryBank.GetCharacterMemory | chunking_engine.py:342-344 | the memory stored under the id, None exactly when the id is unknown |
| Memory.MemoryBank.GetAllCharacters | chunking_engine.py:346-348 | one character per memory, in insertion order |
| Memory.MemoryBank.Load | chunking_engine.py:412-434 | the bank and its global context become those of loading the document, and ok is false exactly when the load stopped on a KeyError |
| Pipeline.PyIndex | chunking_engine.py:453 | Python indexing: negative indices count from the end, and anything outside -len..len-1 is an IndexError |
| Pipeline.FullContextContains | chunking_engine.py:457-460 | the full context contains everything in the memory prompt and in the window |
| Pipeline.ChunkWithContextHolds | chunking_engine.py:451-462 | for a valid index the chunk is returned and its context holds the chunk, the previous chunk and every stored character's name |
| Pipeline.NegativeIndexWindow | chunking_engine.py:451-462 | a negative index returns the chunk counted from the end, with an empty window |
| Pipeline.ChunkingPipeline.constructor | chunking_engine.py:440-443 | a new pipeline has a reader with overlap 500, an empty memory bank and no processed chunks |
| Pipeline.ChunkingPipeline.LoadNovel | chunking_engine.py:445-449 | the reader's chunks become the chapter split of the novel's text |
| Pipeline.ChunkingPipeline.GetChunkWithContext | chunking_engine.py:451-462 | the chunk and its full context, or None for an index out of range |
| Pipeline.ChunkingPipeline.MarkProcessed | chunking_engine.py:464-466 | the index is appended to the processed list |
| Pipeline.ChunkingPipeline.LoadCheckpoint | chunking_engine.py:472-474 | the bank becomes that of loading the document |
| Tfidf.Unigrams | vector_store.py:45-48 | at most one one-character token per character |
| Tfidf.Bigrams | vector_store.py:50-53 | every bigram token has two characters |
| Tfidf.TokensMembers | vector_store.py:41-54 | a token is exactly a lower-cased CJK or alphanumeric character of the text, or a pair of adjacent CJK characters |
| Tfidf.NoTokens | vector_store.py:41-54 | a text with no CJK or alphanumeric character has no tokens |
| Tfidf.Tokenize | vector_store.py:41-54 | the loops compute the unigrams in text order followed by the CJK bigrams |
| Tfidf.TokenizeAll | vector_store.py:63 | one token list per document |
| Tfidf.DocCount | vector_store.py:69-74 | a document frequency is at most the number of documents |
| Tfidf.DocCountBounds | vector_store.py:69-74 | a token is a corpus term exactly when its document frequency is at least 1 |
| Tfidf.IdfFacts | vector_store.py:76-77 | a term found in more documents weighs no more, and a corpus term weighs at least 1 |
| Tfidf.IdfMap | vector_store.py:76-77 | one fit writes idf entries for exactly the corpus terms |
| Tfidf.Vocabulary | vector_store.py:65-66 | the vocabulary maps exactly the corpus terms |
| Tfidf.VocabularyOrdered | vector_store.py:65-66 | vocabulary indices are 0..n-1, distinct, and follow the sorted order of the terms |
| Tfidf.TfCount | vector_store.py:92-95 | a token's term count is its number of occurrences, and only tokens of the text have one |
| Tfidf.TfIdfFacts | vector_store.py:81-106 | a token has a weight exactly when it occurs in the text and has an idf entry; the weight is count/len(tokens)·idf; a text without tokens gives the empty vector |
| Tfidf.FitCoversOwnTokens | vector_store.py:56-106 | after fitting on some texts, transforming one of them drops none of its tokens |
| Tfidf.TfidfVectorizer.constructor | vector_store.py:36-39 | a new vectorizer has no vocabulary, idf or documents |
| Tfidf.TfidfVectorizer.Fit | vector_store.py:56-79 | fit stores the documents' tokens and the sorted vocabulary, and writes idf entries over the old ones without clearing any |
| Tfidf.TfidfVectorizer.DocFrequencies | vector_store.py:69-74 | the loop computes each term's document frequency |
| Tfidf.TfidfVectorizer.UpdateIdf | vector_store.py:76-77 | the loop writes the idf of every corpus term over the old map |
| Tfidf.TfidfVectorizer.TransformOne | vector_store.py:85-104 | the loops compute the text's TF-IDF vector |
| Tfidf.TfidfVectorizer.Transform | vector_store.py:81-106 | one TF-IDF vector per text, in order |
| Tfidf.TfidfVectorizer.FitTransform | vector_store.py:108-111 | fit on the texts, then one vector per text under the new idf |
| Tfidf.CommonKeys | vector_store.py:116-117 | the shared dimensions are exactly the keys in both vectors |
| Tfidf.DotSumPermutation | vector_store.py:123 | the dot product does not depend on the order the shared dimensions are visited |
| Tfidf.CosineFacts | vector_store.py:114-132 | cosine similarity is symmetric, and 0 when the vectors share no key or a norm is 0 |
| Tfidf.CosineSelf | vector_store.py:114-132 | a vector with non-zero norm has similarity 1 with itself |
| MemoryStore.Labelled | vector_store.py:162-172 | fragment i of a kind gets id prefix + i and content prefix + value |
| MemoryStore.AddFragmentsStores | vector_store.py:174-187 | the last fragment with a given id is the one stored under it |
| MemoryStore.AddFragmentsKeeps | vector_store.py:174-187 | memories of other ids are untouched |
| MemoryStore.RepeatedAddListsTwice | vector_store.py:148-187 | adding the same trait twice overwrites its memory but lists its id twice for the character, so reading the character's memories returns it twice |
| MemoryStore.Revectorize | vector_store.py:196-198 | recomputing vectors keeps every memory id |
| MemoryStore.RevectorizedFacts | vector_store.py:196-198 | after a refit every memory's vector is the TF-IDF vector of its content and nothing else changes |
| MemoryStore.Candidates | vector_store.py:221-236 | at most one scored pair per key |
| MemoryStore.EligibleKeys | vector_store.py:224-231 | exactly the keys whose memory passes the character filter and has a non-empty vector |
| MemoryStore.EligibleKeysDistinct | vector_store.py:221-236 | each memory of the store is eligible at most once |
| MemoryStore.CandidatesComplete | vector_store.py:221-236 | the scores list holds, in store order, exactly one entry per eligible memory: the memory with its cosine similarity to the query |
| MemoryStore.TopK | vector_store.py:239-241 | a prefix of the stable descending sort holds min(top_k, n) of the elements, none left out ranking above one taken, and for each key the earliest elements of that key |
| MemoryStore.SearchTopK | vector_store.py:200-241 | search returns min(top_k, number of candidates) results taken from the candidates; no candidate left out scores above one returned, and equal scores keep store order |
| MemoryStore.SearchFacts | vector_store.py:200-241 | at most top_k results in descending score; each is a stored memory that passes the filter, has a non-empty vector and carries its cosine with the query; no memories, an empty vocabulary or an empty query vector give []; otherwise min(top_k, number of candidates) results, no candidate left out scores above one returned, and equal scores keep store order |
| MemoryStore.AggregateFacts | vector_store.py:262-277 | a character is tallied exactly when one of its fragments scores above 0.1, and then with a positive count |
| MemoryStore.FinalScores | vector_store.py:279-282 | one final score per tallied character, in first-hit order |
| MemoryStore.RankingFacts | vector_store.py:250-286 | at most top_k distinct characters, each with a fragment scoring above 0.1; exactly min(top_k, number of aggregated characters) of them, no aggregated character left out with a higher final score than one ranked, and every counted character ranked when top_k covers them all |
| MemoryStore.RankingTopK | vector_store.py:279-286 | the ranking takes min(top_k, number of aggregated characters) characters, none left out scoring above one taken, and all counted characters when top_k covers them |
| MemoryStore.RankingCovers | vector_store.py:279-286 | with top_k at least the number of aggregated characters, every aggregated character is ranked |
| MemoryStore.RankingDescending | vector_store.py:279-286 | the ranking is in descending final score, each score being the summed similarity / ln(hits + 2) |
| MemoryStore.Known | vector_store.py:246-248 | at most one memory per listed id, each the stored memory of a listed id |
| MemoryStore.KnownComplete | vector_store.py:246-248 | every stored memory of a listed id is returned |
| MemoryStore.KnownInOrder | vector_store.py:246-248 | the memories follow the listing order: those of a list followed by another are those of the first list followed by those of the second |
| MemoryStore.KnownSingle | vector_store.py:246-248 | one listed id gives its stored memory, or nothing when it is not stored |
| MemoryStore.CharacterMemories | vector_store.py:243-248 | the result is the first limit stored memories listed for the character, in listing order: a prefix of them of length min(limit, their number), and all of them when limit is at least the number listed |
| MemoryStore.Pick | vector_store.py:317-326 | at most one entry per fragment |
| MemoryStore.CharInfoShape | vector_store.py:311-339 | each character block starts with its name, has at most five lines, and classifies every fragment exactly once |
| MemoryStore.CharInfoCaps | vector_store.py:317-337 | at most 3 traits, 2 goals and 2 appearances are listed, with the first description cut to 50 characters followed by "..." |
| MemoryStore.SummaryNames | vector_store.py:302-341 | every requested character with memories has its name in the summary, from at most 5 fragments |
| MemoryStore.SummaryEmptyIff | vector_store.py:299-341 | the summary is "" exactly when no ids are requested |
| MemoryStore.CharacterMemoryStore.constructor | vector_store.py:141-146 | a new store is empty and clean, with an empty vectorizer |
| MemoryStore.CharacterMemoryStore.AddMemory | vector_store.py:148-152 | the memory is stored under its id, listed for its character, and the store is marked for refit |
| MemoryStore.CharacterMemoryStore.AddCharacterMemories | vector_store.py:154-187 | every fragment is stored, listed for the character and appended to the corpus texts, and the store is marked for refit |
| MemoryStore.CharacterMemoryStore.LabelFragments | vector_store.py:162-172 | the loop labels the fragments of one kind |
| MemoryStore.CharacterMemoryStore.EnsureFitted | vector_store.py:189-198 | a dirty store with texts refits, clears the flag and revectorizes every memory; otherwise nothing changes |
| MemoryStore.CharacterMemoryStore.SearchByQuery | vector_store.py:189-241 | the store is refitted first when it is dirty and has a corpus (vectorizer fitted to the corpus, every vector recomputed under the new idf) and left as it was otherwise; the result is the query search over that store |
| MemoryStore.CharacterMemoryStore.ScoreAll | vector_store.py:221-236 | the loop scores every memory that passes the filter and has a vector |
| MemoryStore.CharacterMemoryStore.GetCharacterMemories | vector_store.py:243-248 | the first limit stored memories listed for the character, in listing order: a prefix of them of length min(limit, their number), and all of them when limit is at least the number listed |
| MemoryStore.CharacterMemoryStore.SearchCharactersInText | vector_store.py:250-286 | the store is refitted as for search_by_query, and left as it was when clean; the result is the character ranking over that store |
| MemoryStore.CharacterMemoryStore.AggregateAll | vector_store.py:262-277 | the loop computes the per-character sums and hit counts |
| MemoryStore.CharacterMemoryStore.GetSummaryForContext | vector_store.py:288-341 | the summary is "" exactly when no ids are requested |
| VectorBank.AddOnceFacts | vector_store.py:397-405 | adding a relationship or location keeps the list as a prefix, adds the value only if missing, keeps it repeat-free, and a second add changes nothing |
| VectorBank.Indented | vector_store.py:427-437 | each recent entry is indented by two spaces |
| VectorBank.AllCharactersFacts | vector_store.py:441-456 | the names drawn on are exactly those of the stored listed memories, none twice; the summary is "" exactly when there is none, and otherwise the header line followed by one line of two spaces and a name for each of the first ten names, naming every one when there are at most ten |
| VectorBank.AllCharactersLines | vector_store.py:450-456 | a non-empty summary is the header followed by min(10, number of names) indented name lines, starts with the header and contains each line it lists |
| VectorBank.BankPromptMentions | vector_store.py:411-439 | the prompt contains the character part, the last 5 relationships and the last 3 plot points |
| VectorBank.BankPromptEmpty | vector_store.py:411-439 | with no parts and no entries the prompt is "", and parts are separated by blank lines |
| VectorBank.ContextForFacts | vector_store.py:377-395 | the context is "" exactly when no character ranks, and it names every ranked character that has memories |
| VectorBank.VectorMemoryBank.constructor | vector_store.py:347-354 | a new bank has an empty store and empty context lists |
| VectorBank.VectorMemoryBank.AddCharacter | vector_store.py:356-370 | the character's fragments are added to the store and its name is mapped to its id |
| VectorBank.VectorMemoryBank.RetrieveRelevantCharacters | vector_store.py:372-375 | the store is refitted when dirty, and left as it was otherwise; the result is the store's character ranking over it |
| VectorBank.VectorMemoryBank.BuildContext | vector_store.py:377-395 | the store is refitted when dirty, and left as it was otherwise; the result is the context of the top-ranked characters, "" when none ranks |
| VectorBank.VectorMemoryBank.AddRelationship | vector_store.py:397-400 | the relationship is appended unless already present |
| VectorBank.VectorMemoryBank.AddLocation | vector_store.py:402-405 | the location is appended unless already present |
| VectorBank.VectorMemoryBank.AddPlotPoint | vector_store.py:407-409 | the plot point is always appended |
| VectorBank.VectorMemoryBank.ToContextPrompt | vector_store.py:411-439 | with current text the store is refitted when dirty and the prompt uses the retrieved context; otherwise the store is untouched and the prompt lists all characters; the recent relationships and plot points follow |
| VectorBank.VectorMemoryBank.WithRecent | vector_store.py:425-439 | the loop builds the prompt from its parts |
| VectorBank.VectorMemoryBank.Section | vector_store.py:427-437 | a section is its header followed by the indented entries |
| Script.TimeFallbackPriority | script_generator.py:179-194 | the time is 夜 exactly when a night keyword occurs, 晨 exactly when only a dawn keyword occurs, and 日 otherwise |
| Script.DetermineTimeFallback | script_generator.py:179-194 | the nested loops with early return compute the keyword classification |
| Script.MissingDescriptionHarmless | script_generator.py:187 | a missing description puts "None" into the searched text but never changes the guess |
| Script.SceneFacts | script_generator.py:130-177 | the fallback scene has id "scene_"+event id, the event's chapter and characters, the summary as its only action, no dialogue, the event's location unless missing or empty (未知地点 then) and its description unless missing or empty (the summary then); a parsed scene takes each field the reply gives and otherwise the event's id, chapter, location (or 未知地点), summary and characters, the time 日, and no actions or dialogue |
| Script.CreateSceneFromEvent | script_generator.py:130-162 | the scene built from the event and the parsed reply |
| Script.Generate | script_generator.py:119-128 | exactly one scene per event, in event order |
| Storyboard.FallbackFacts | storyboard_generator.py:171-220 | a still wide shot first, then one close shot per dialogue line (or one medium shot without dialogue), so 1 + max(1, dialogues) shots, each numbered by position with a matching id and the scene's id |
| Storyboard.SilentSpeakerUnknown | storyboard_generator.py:191 | a dialogue line without a speaker is attributed to "unknown" |
| Storyboard.ParsedShots | storyboard_generator.py:151-163 | one shot per parsed entry |
| Storyboard.GeneratedFacts | storyboard_generator.py:127-169 | generate never returns an empty list; a missing or empty shot list gives the fallback; parsed shots default number, scene, type and duration |
| Storyboard.CreateFallbackShots | storyboard_generator.py:171-220 | the loop builds exactly the fallback shots |
| Storyboard.Generate | storyboard_generator.py:127-169 | the loop builds exactly the generated shots |
| Extractor.StopFrom | extractor.py:84-169 | the first attempt that ends the loop, with every earlier attempt retried or falling through |
| Extractor.ChatBounds | extractor.py:84-174 | at most max_retries + 1 attempts, at least one when max_retries >= 0; every attempt but the last was retried or fell through; a returned answer is the last attempt's content |
| Extractor.ClientErrorNotRetried | extractor.py:145-147 | a 4xx other than 429 is raised at once |
| Extractor.RetriesExhausted | extractor.py:122-169 | retryable failures on every attempt use all attempts and raise the last failure |
| Extractor.RetryThenSuccess | extractor.py:111-169 | retryable failures followed by a success return the success |
| Extractor.FallThroughRaisedAtEnd | extractor.py:117-147 | statuses outside 400..599 on every attempt exhaust the loop and the last one is raised |
| Extractor.FirstAttemptWithoutSystemMessage | extractor.py:93-111 | as written, the first attempt in JSON mode goes out without the system message and so differs from the prepared conversation, while the retry sends the prepared conversation |
| Extractor.PreparedFacts | extractor.py:100-109 | the prepared conversation opens with a system message, keeps the caller's messages in order, and preparing twice adds nothing |
| Extractor.Chat | extractor.py:62-174 | the loop returns or raises as the retry policy says, with one request per attempt, each carrying the prepared conversation |
| Extractor.BraceSlice | extractor.py:311-314 | the slice starts with '{' and ends with '}' |
| Extractor.BraceSliceIff | extractor.py:311-314 | the slice exists exactly when some '{' comes before some '}' |
| Extractor.BraceSliceWidest | extractor.py:311-316 | the slice runs from the first '{' to the last '}' |
| Extractor.ParseResponse | extractor.py:295-320 | the stripped response is parsed first and wins when it parses; otherwise a fenced block that parses wins; otherwise the brace slice is parsed; the result fails exactly when all three fail |
| Extractor.CharacterDefaults | extractor.py:282-290 | a missing id becomes "char_" + name or "char_unknown"; missing lists become []; background and appearance pass through |
| Extractor.Extract | extractor.py:269-293 | an unusable reply gives []; otherwise one character per entry, in order, with defaults |
| Api.Lookup | api.py:107-110 | the entry stored under the id, None exactly when absent |
| Api.CreatedFacts | api.py:89-105 | a new task is pending at progress 0 with no result, error or completion time, replaces any entry of that id and leaves the others |
| Api.UpdatedFacts | api.py:112-140 | an unknown id changes nothing; otherwise only that entry changes: each given status, progress, message and error message is written, each field given as None stays, the update time is stamped and the completion time only for status completed |
| Api.UpdateIdempotent | api.py:112-140 | repeating an update changes nothing more, and an empty update only stamps the time |
| Api.ResultSetFacts | api.py:142-153 | an unknown id changes nothing; otherwise the entry is completed with the result and the others stay |
| Api.OperationsKeepWellFormed | api.py:77-164 | every operation keeps each entry under its own id and every completed task with a completion time |
| Api.DecisionFacts | api.py:430-470 | 404 exactly for an unknown task, 400 for an unfinished one, 500 for a finished one without result, and the result otherwise |
| Api.Lifecycle | api.py:89-164 | created gives 400; set_result gives the result; cleanup gives 404; a status update to completed without result gives 500 |
| Api.AcceptedUploadIff | api.py:321-326 | an upload is accepted exactly when the name ends in '.' followed by t, x, t in any case |
| Api.UploadCleanup | api.py:336-340 | a new task has no directory to delete; after the upload handler records a non-empty directory on it, cleanup deletes exactly that directory and removes its entry, and other entries are untouched |
| Api.TaskStore.constructor | api.py:85-87 | a new store is empty |
| Api.TaskStore.CreateTask | api.py:89-105 | the new pending entry is stored and returned |
| Api.TaskStore.GetTask | api.py:107-110 | the entry stored under the id, if any |
| Api.TaskStore.UpdateTask | api.py:112-140 | the table becomes the updated table and the updated entry (or None) is returned |
| Api.TaskStore.SetResult | api.py:142-153 | true exactly for a known id, and the table becomes the one with the result set |
| Api.TaskStore.CleanupTask | api.py:155-164 | the id is removed (a no-op when absent), and the non-empty recorded directory, if any, is the one to delete |
| Api.TaskStore.RecordTempDir | api.py:338-340 | the upload handler's write of temp_dir through the entry create_task returned reaches the stored entry |
| Api.TaskStore.GetTaskResult | api.py:430-470 | the endpoint's decision for the stored task; a finished answer always has a completion time |

## Left out

- File and encoding I/O is not modelled. This covers `read_file`, the file parts of `save`/`load`, and the file read in `load_novel`. `LoadNovel` takes the text, `Load` takes the parsed document (None for a missing file), and `Save` returns the document.
- The regex engine is replaced by a hand-written matcher for the three chapter patterns and the title search. `\s` is Python's full whitespace set (including U+3000), while `\d` and IGNORECASE are taken for ASCII only.
- The `try/except` around the numeral parser in `split_by_chapters` is left out: the captured ordinals are ASCII digits or table numerals, for which the parser does not raise.
- Python `set` order in `to_character` and `_get_all_characters_summary` is unspecified. The model keeps the last occurrence of each value, in order, and proves only the contents.
- `IsAlnum` and `Lower` follow ASCII only. Python's `isalnum` and `lower` are Unicode-aware, so non-ASCII letters and digits outside the CJK block are not tokens in the model.
- Floating point is exact: real arithmetic, with `math.log` and `math.sqrt` as function parameters. Rounding is not modelled, and neither are the retry delay, jitter, `sleep` or `print`.
- All language-model clients, prompt templates and `json.loads` are left out. A reply is passed in as an already-parsed record, where a missing key is `None`. A key present with a null value or a value of the wrong type is not distinguished.
- The relationship and timeline extractors are left out. Their parsing fallbacks are the same as the character extractor's.
- `main.py`, the FastAPI routes other than the result decision and the upload check, the background worker, the lock, `uuid`, `datetime` and `rmtree` are left out. Clock readings are a `now` parameter, and `CleanupTask` returns the directory it would delete.
- Aliasing is modelled only for the upload handler's `temp_dir` write (`Api.TaskStore.RecordTempDir`). Otherwise `create_task` and `update_task` return a copy of the entry where Python returns the live dictionary, so a later write by the caller through that dictionary is not reflected in the table.
- Memory metadata is modelled as a map from strings to strings.
- Reader.NovelReader.SplitByChapters (and Pipeline.ChunkingPipeline.LoadNovel, which calls it): requires max_chunk_size >= 1 only when no heading survives and the text is non-empty, because only the fixed-size split reads it. With max_chunk_size 0 there, every window is empty and Python loops forever for a non-negative overlap_size. With a negative max_chunk_size, Python's slices count from the end of the text and its cut test `last_sep > max_chunk_size // 2` accepts the -1 of a failed `rfind`, so the loop can finish (one-character windows for -3 or less, for instance); the model does not reproduce those runs.
- Reader.NovelReader.SplitBySize: uses the corrected next start of the findings below. Where the step as written moves forward, the two agree (`Reader.NextStartAgrees`). Where it does not, Python either loops forever or steps back and finishes with other windows: a start before 0 is read from the end of the text, and a start at or before the previous one repeats text. The corrected step therefore also changes the chunks of some runs that finish in Python. This happens whenever a cut window is no longer than overlap_size, which the source never rules out; it needs overlap_size > max_chunk_size // 2 + 2. For example, a 300-character text whose only separator is "。\n" at offset 51, with max_chunk_size 100 and overlap_size 56, gives windows starting at 0, 41, 85, 129, 173 and 217 in Python, but 0, 53, 97, 141, 185 and 229 in the model.
- Reader.NovelReader.SplitByChapters: numbers chapters with the corrected numeral parser. The parser as written is kept as `ChineseNumerals.ChineseToIntAsWritten`.
- Extractor.Chat: sends the system message on every attempt, as the corrected policy does. The attempt-by-attempt messages as written are `Extractor.SentAsWritten`.

## Findings

| source | as written | input that shows it | evidently intended | confidence | as-written member | corrected member |
|---|---|---|---|---|---|---|
| chunking_engine.py:153-167 | 十 (10) is added to `temp` like a digit, so it never multiplies the digit before it | "二十" (chapter 20) gives 12 | 20: a unit multiplies the digit before it | not executed | ChineseNumerals.AsWrittenTwenty | ChineseNumerals.NumeralValueOfChinese |
| chunking_engine.py:292 | `start = end - overlap_size` may step back to or before the current start | a 1000-character text with "。\n" at offset 498, max_chunk_size 900, overlap_size 500: the window ends at 500 and the next start is 0 again, forever | the next start moves forward | not executed | Reader.AsWrittenStalls | Reader.SizeChunksShape |
| extractor.py:93-111 | `request_kwargs["messages"]` is bound before the JSON system message is put in front of `messages` | JSON mode with one user message: the first attempt is sent without the system message | every attempt sends the system message | not executed | Extractor.FirstAttemptWithoutSystemMessage | Extractor.Chat |
