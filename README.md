# MemoxBasel session backend, modelled in Dafny

MemoxBasel records a live session. Participants send short texts to topics, and a background
script groups the texts of each topic into titled categories. This project models the
deterministic logic of that system and proves properties of it:

- **The topic store** (`server.py`). There are four HTTP handlers:
  - `/init` creates a session folder;
  - `/topic` writes an empty topic document;
  - `/input` appends a text;
  - `/end-topic` renames a topic to its finished name.

  Each handler is written twice. `Server.Init`, `Server.CreateTopic`, `Server.AddInput` and
  `Server.EndTopic` are functions from the disk before the request to the reply and the disk
  after it. The `Handle…` methods perform the same steps on a `Storage.SessionsFolder` object,
  whose fields they update in place.
- **The categoriser** (`main.py` and its older copy `testprogramrevamped.py`). It covers:
  - the cluster count;
  - grouping the inputs by cluster label;
  - titles made distinct with ` (k)` suffixes;
  - `shorten_topic` and `extract_key_nouns`;
  - the skip rule of `run_all`, and the nested loops of `run_all`;
  - the document updates of `mark_as_processing` and `update_json_file`.

  The clustering and the zero-shot classifier are parameters. Module `Titles` holds the title
  logic, `Categorize` the grouping and document updates, and `Processing` the pass over the
  sessions folder. `Revamped` holds the one place where the older script differs: its
  `update_json_file` does not set `checked`.
- **The summarisers** (`summarizer.py`, `summarizer2.py`). It covers:
  - key-concept extraction with `Counter.most_common`;
  - the manual-summary templates;
  - the prompt, and the acceptance rule for a generated summary;
  - the length bounds of `create_summary`;
  - the per-category loop both scripts share (module `SummaryFile`).

  The language models are parameters.
- **The batch reset** (`reset_checked.py`). Nested loops clear `checked` on every open topic
  document and count the documents they changed.
- **The landing page script** (`script.js`). It covers:
  - session-name normalisation (trim, then every whitespace run becomes `-`);
  - the topic-name trim;
  - the two-state theme toggle and its icon.

  The page is a `Frontend.Page` object whose methods update its fields.

Shared modules:

- `Json`: decoded JSON values. An object is a list of fields in insertion order, which is how a
  Python dict behaves.
- `Text`: Python and JavaScript string operations.
- `Counter`: Python's `collections.Counter` and `most_common`.
- `Storage`: the `sessions_folder` tree, as (session folder, file name) keys mapping to
  documents.
- `Wrappers`: `Option`.

## Model

| member | source | states |
|---|---|---|
| `Server.Init` | code/backend/server.py:13-24 | Always answers 200. The root folder exists afterwards and no document changes. A non-empty session name is added to the sessions, and nothing else is added. |
| `Server.CreateTopic` | code/backend/server.py:26-62 | Status is one of 200, 400 or 404. It is 400 exactly when `session_uid` or `topic_uid` is missing or empty. It is 404 exactly when both are given but the session folder is absent. Any error leaves the disk unchanged. On 200, `<topic>.json` holds exactly `{session_uid, topic_uid, inputs: []}`, replacing any earlier document, and every other document is unchanged. |
| `Server.AddInput` | code/backend/server.py:64-113 | Status is 400 exactly when `session_uid`, `topic_uid` or `text` is missing or empty. It is 404 exactly when all are given but `<topic>.json` is absent. It is 500, with an empty body, when the document has no `inputs` list. Errors change nothing. On 200 the text is appended at the end of `inputs`. Other keys keep their values and their order. No other document changes. `total_inputs` is the new length. |
| `Server.EndTopic` | code/backend/server.py:115-164 | Status is 400 for a missing id, 404 exactly when `<topic>.json` is absent, and 409 exactly when `<topic>_finished.json` already exists. Errors change nothing. On 200 the document moves unchanged to the finished name, the old key is gone, and every other document is unchanged. |
| `Server.InitIdempotent` | code/backend/server.py:16-19 | Initialising a session twice gives the same reply and disk as initialising it once. |
| `Server.HandlersKeepValid` | code/backend/server.py:45-57 | Every handler keeps every document inside an existing session folder. |
| `Server.FinishedNameCollides` | code/backend/server.py:144 | The file of topic `x_finished` is the finished file of topic `x`. |
| `Server.CreateFinishedNameBlocksEnd` | code/backend/server.py:143-151 | Creating topics `x_finished` and `x`, then ending `x`, answers 409 although `x` was never ended. |
| `Server.EndedTopicRejectsInput` | code/backend/server.py:90-97 | After a topic is ended, appending to it answers 404 and leaves the disk unchanged. |
| `Server.RecreateDropsInputs` | code/backend/server.py:54-57 | Creating an existing topic again resets its `inputs` to the empty list. |
| `Server.AddAllAppends` | code/backend/server.py:99-112 | Appending a sequence of non-empty texts to an existing topic succeeds for each text. `inputs` becomes the old inputs followed by the texts, in order. |
| `Server.AddInputAppends` | code/backend/server.py:99-108 | One append to an existing topic answers 200 and adds the text at the end of `inputs`. |
| `Server.Start` | code/backend/server.py:9-11 | Server start-up makes the root folder and changes nothing else. It keeps the disk well-formed. |
| `Server.HandleInit` | code/backend/server.py:13-24 | Makes the folder on the sessions folder object. The reply and the new disk are those of `Server.Init`. |
| `Server.HandleCreateTopic` | code/backend/server.py:26-62 | Performs the handler's checks and write in the source's order. The reply and the new disk are those of `Server.CreateTopic`. |
| `Server.HandleAddInput` | code/backend/server.py:64-113 | Reads, appends and writes back. The reply and the new disk are those of `Server.AddInput`. |
| `Server.HandleEndTopic` | code/backend/server.py:115-164 | Checks, then renames. The reply and the new disk are those of `Server.EndTopic`. |
| `Storage.SessionsFolder.MakeRoot` | code/backend/server.py:11 | The root folder exists afterwards, and its contents are unchanged. |
| `Storage.SessionsFolder.MakeSession` | code/backend/server.py:16-19 | The root exists afterwards. A non-empty session name is added, because `os.path.join(root, "")` is the root itself. The documents are unchanged. |
| `Storage.SessionsFolder.Write` | code/backend/server.py:56-57 | Exactly one document is replaced. |
| `Storage.SessionsFolder.Rename` | code/backend/server.py:154 | The document moves to the new key, and the old key is removed. |
| `Storage.TopicFileIsOpen` | code/backend/main.py:217 | A topic's own file is an open topic file, unless the topic name itself ends in `_finished`. |
| `Storage.FinishedFileIsClosed` | code/backend/reset_checked.py:25 | A finished file is never an open topic file. |
| `Categorize.DefaultClusterCount` | code/backend/main.py:15 | The default cluster count is at least 2 and at least `n // 3`, and it is one of the two. |
| `Categorize.SuffixedInjective` | code/backend/main.py:34 | Different counters give different suffixed titles. |
| `Categorize.FirstFree` | code/backend/main.py:32-36 | The counter found is free, and every counter from the start up to it is taken. |
| `Categorize.UniqueTitleSmallest` | code/backend/main.py:32-37 | The stored title is not yet a key. It is the title itself when that is free, and otherwise `"T (k)"` for the smallest free k ≥ 1. |
| `Categorize.Deduplicate` | code/backend/main.py:32-36 | The `while title in results` loop ends with the title `Categorize.UniqueTitle` describes. |
| `Categorize.GroupClusters` | code/backend/main.py:22-38 | The loop over cluster ids builds the grouping `Build` describes. |
| `Categorize.CategorizeTexts` | code/backend/main.py:11-39 | Gives the grouping for the given or default cluster count. It fails where KMeans raises: fewer inputs than clusters, or no cluster. |
| `Categorize.BuildTitlesDistinct` | code/backend/main.py:24-37 | The titles of the grouping are distinct, and no group is empty. |
| `Categorize.BuildCovers` | code/backend/main.py:24-37 | Clusters `0 .. n-1` together hold exactly the inputs labelled below n, counted with multiplicity. |
| `Categorize.CategorizedPartitions` | code/backend/main.py:22-39 | With labels in `[0, k)` the grouping is a partition: it holds every input exactly as often as it occurs. Titles are distinct and no group is empty. |
| `Categorize.MembersAreInputs` | code/backend/main.py:25 | A cluster's list takes each input at most as often as it occurs. |
| `Categorize.MembersInOrder` | code/backend/main.py:24-28 | A cluster's list is the inputs taken at a strictly increasing sequence of indices. Those indices are exactly the ones labelled with that cluster, so the inputs keep their original order. |
| `Categorize.BuildGroupsAreMembers` | code/backend/main.py:22-28 | Every group built for clusters `0 .. n-1` holds the list of one of those clusters. |
| `Categorize.CategorizedGroupsAreClusters` | code/backend/main.py:11-39 | Every group of a grouping holds the list of one cluster below k. With `Categorize.MembersInOrder`, its texts are that cluster's inputs in their original order. |
| `Categorize.MembersAreLabelled` | code/backend/main.py:25 | A cluster's list holds exactly the inputs that carry that cluster's label. |
| `Categorize.MarkedDoc` | code/backend/main.py:138-151 | `mark_as_processing` sets `checked` to true and leaves every other key unchanged. |
| `Categorize.UpdatedDoc` | code/backend/main.py:153-161 | `update_json_file` sets `formatted` to the grouping and `checked` to true. Every other key is unchanged. |
| `Categorize.MarkAfterUpdate` | code/backend/main.py:146-161 | Marking an updated document changes nothing. |
| `Categorize.MarkAsProcessing` | code/backend/main.py:138-151 | Writes the marked loaded document, or `{checked: true}` for a missing file, and no other file. |
| `Categorize.UpdateJsonFile` | code/backend/main.py:153-164 | Writes the updated loaded document, or an updated empty one for a missing file, and no other file. |
| `Titles.Truncated` | code/backend/main.py:98-101 | The label is cut exactly when the part before its first `" and "` has at least two words. A cut keeps exactly that part. |
| `Titles.ShortenTopicWords` | code/backend/main.py:97-104 | Splitting the shortened topic gives back exactly the capitalised words of the cut label. |
| `Titles.ShortenTopicCapitalized` | code/backend/main.py:103-104 | Every word of a shortened topic is already capitalised. |
| `Titles.CapitalizeAllWords` | code/backend/main.py:104 | Capitalising keeps the number of words and adds no whitespace to any word. |
| `Titles.CandidatesAreKeyNouns` | code/backend/main.py:120-123 | Every counted word is not a stop word, is longer than 4 characters and is not all digits. |
| `Titles.CandidatesComplete` | code/backend/main.py:120-123 | Conversely, every word whose cleaned form passes that filter is counted. |
| `Titles.CandidatesAreWordChars` | code/backend/main.py:121 | Every counted word consists of word characters only. |
| `Titles.TopWordSpec` | code/backend/main.py:125-128 | There is a top word exactly when some word was counted. It is one of the counted words, and none occurs more often. |
| `Titles.CountKeyNouns` | code/backend/main.py:119-123 | The counting loop builds the `Counter` of the qualifying cleaned words. |
| `Titles.ExtractKeyNouns` | code/backend/main.py:107-129 | The loop-and-`most_common` implementation gives `Titles.KeyNoun`. |
| `Titles.KeyNounGeneral` | code/backend/main.py:125-126 | The result is "General Topics" exactly when no word qualifies. |
| `Titles.KeyNounMostFrequent` | code/backend/main.py:125-129 | When some word qualifies, the result is a qualifying word, capitalised, and no qualifying word occurs more often. |
| `Counter.OfCounts` | code/backend/main.py:119-123 | Counting a list gives distinct keys, exactly the list's strings, each with its number of occurrences. |
| `Counter.MostCommonLength` | code/backend/summarizer.py:101 | `most_common(n)` gives n keys, or all of them when there are fewer, and only keys. |
| `Counter.MostCommonOrdered` | code/backend/summarizer.py:100-101 | `most_common(n)` lists distinct keys in non-increasing order of count. Equal counts keep insertion order. |
| `Counter.MostCommonBeatsRest` | code/backend/summarizer.py:100-101 | No key left out of `most_common(n)` has a higher count than a key taken. |
| `Counter.MostCommonOfList` | code/backend/main.py:128 | The `Counter.OfCounts` and `most_common` facts combined, stated in terms of the counted list. |
| `Processing.StrsOfStrList` | code/backend/main.py:188-193 | Texts stored as a JSON list read back as the same texts. |
| `Processing.Run` | code/backend/main.py:187-201 | `run` stores the grouping of the inputs in that one document. It leaves the document unchanged when there are no inputs or categorising fails. |
| `Processing.ProcessFile` | code/backend/main.py:220-253 | A stale document is marked and then run. Any other document is left alone, and no other file changes. |
| `Processing.ProcessFolder` | code/backend/main.py:216-253 | The inner loop handles every open topic file of the folder once. Files of other folders are unchanged. |
| `Processing.RunAll` | code/backend/main.py:203-253 | Nothing happens without a sessions folder. Otherwise every open topic file is handled once, and every other file is unchanged. |
| `Processing.GroupingCount` | code/backend/main.py:239 | A stored grouping's formatted count is the number of its texts. |
| `Processing.UpdatedIsUpToDate` | code/backend/main.py:234-242 | A document updated with a grouping of all its inputs is skipped by the next pass. |
| `Processing.UpToDateWhen` | code/backend/main.py:234-240 | Checked, non-empty formatted, and formatted count equal to the input count means the file is skipped. |
| `Processing.PassThenSkip` | code/backend/main.py:201 | After a pass stores a grouping holding every input once, the next pass skips the file and changes nothing. |
| `Processing.CategorizedPassThenSkip` | code/backend/main.py:193-201 | With in-range labels and enough inputs, one pass leaves a stale document up to date. |
| `Processing.OneInputNeverFormatted` | code/backend/main.py:15-17 | A topic with a single input is marked on every pass but never categorised. The two default clusters exceed its one sample. |
| `Processing.AfterPassKeepsOtherKeys` | code/backend/main.py:146-161 | A pass changes only `checked` and `formatted`. |
| `Processing.GrowthReprocesses` | code/backend/main.py:239-242 | A new input after an up-to-date pass makes the document stale again. |
| `Processing.PassAllFrame` | code/backend/main.py:216-217 | A pass keeps the set of files and changes only open topic files. |
| `Revamped.RevampedUpdatedDoc` | code/backend/testprogramrevamped.py:123-130 | The older `update_json_file` sets `formatted` and leaves every other key, `checked` included, unchanged. |
| `Revamped.UpdateJsonFile` | code/backend/testprogramrevamped.py:123-133 | Writes that document, or an updated empty one for a missing file, and no other file. |
| `Revamped.UpdateIsRevampedThenMark` | code/backend/testprogramrevamped.py:130 | main.py's update equals the older update followed by setting `checked`. |
| `Revamped.RunIsRevampedThenMark` | code/backend/testprogramrevamped.py:136-150 | On a marked document, main.py's `run` gives the marked result of the older script's main block. |
| `Revamped.RevampedLeavesStale` | code/backend/testprogramrevamped.py:123-133 | A document the older script categorised keeps an unset `checked`, so `run_all` still treats it as stale. |
| `ResetChecked.Reset` | code/backend/reset_checked.py:33-34 | Sets `checked` to false and leaves every other key unchanged. |
| `ResetChecked.ResetOne` | code/backend/reset_checked.py:25-42 | Resets the document exactly when it is eligible, touches no other file, and reports whether it reset. |
| `ResetChecked.ResetFolder` | code/backend/reset_checked.py:24-42 | Resets every eligible document of the folder and no other. The count is the number of eligible documents in the folder. |
| `ResetChecked.ResetSessions` | code/backend/reset_checked.py:18-42 | Every document is replaced by its reset form. The total is the number of eligible documents. |
| `ResetChecked.ResetCheckedStatus` | code/backend/reset_checked.py:10-47 | Without a sessions folder nothing changes. Otherwise every eligible document is reset, every other document is unchanged, and the count is the number of eligible documents. |
| `ResetChecked.ResetChangesExactlyEligible` | code/backend/reset_checked.py:33-42 | A document is rewritten exactly when it is an open topic file with a truthy `checked`. |
| `ResetChecked.SecondRunResetsNothing` | code/backend/reset_checked.py:33-42 | After a run no document is eligible, and a second run changes nothing. |
| `ResetChecked.ResetForcesReprocessing` | code/backend/reset_checked.py:1-4 | A reset document that has inputs is stale for `run_all`. |
| `Summarizer.ConceptsAreConcepts` | code/backend/summarizer.py:94-98 | Every collected concept is non-empty and not a stop word. It is longer than 4 characters and ends in neither `ing` nor `ed`. |
| `Summarizer.ConceptsComplete` | code/backend/summarizer.py:93-98 | Conversely, every word whose cleaned form passes that filter is collected. |
| `Summarizer.CollectConcepts` | code/backend/summarizer.py:93-98 | The collecting loop gives the concepts of the words, in order. |
| `Summarizer.KeyConceptsSpec` | code/backend/summarizer.py:82-101 | At most 5 key concepts: five, or all the distinct concepts when there are fewer. Each is a concept of the text, and they are distinct. They come in non-increasing order of frequency, and no concept left out occurs more often than one taken. |
| `Summarizer.ExtractKeyConcepts` | code/backend/summarizer.py:82-101 | The loop and `most_common(5)` give `Summarizer.KeyConcepts`. |
| `Summarizer.ManualSummaryTemplate` | code/backend/summarizer.py:104-118 | "Collection" exactly when there are no concepts. "Focuses" exactly when there are concepts and one text, whatever the concept count. Otherwise "Covers", "Discusses" or "Explores" for ≥3, 2 or 1 concepts. |
| `Summarizer.ManualSummaryNamesConcept` | code/backend/summarizer.py:110-118 | With concepts, the summary names the first concept. |
| `Summarizer.ManualSummaryNamesCount` | code/backend/summarizer.py:107-118 | The summary names the number of texts in every case but the single-text one. |
| `Summarizer.Take4` | code/backend/summarizer.py:59 | `key_concepts[:4]` is the first min(4, n) concepts. |
| `Summarizer.PromptShape` | code/backend/summarizer.py:56-60 | With fewer than 2 concepts: the one-sentence prompt ending in the first 500 characters. Otherwise the prompt is exactly "Write a brief summary about ", then the first min(4, n) concepts joined by ", ", then " based on: " and the first 400 characters. |
| `Summarizer.CopiedOpeningRejected` | code/backend/summarizer.py:73 | A generated summary that is an opening of the combined text is never kept. |
| `Summarizer.Condensed` | code/backend/summarizer.py:51-79 | When the model answers and its stripped text passes the acceptance rule, that text is the result. In every other case the result is the manual summary: the model fails, the text is empty or at most 15 characters, or it is the opening of the texts up to case. |
| `Summarizer.CondensedFallback` | code/backend/summarizer.py:62-79 | A failing model, or one that only repeats the opening of the texts, gives the manual summary. |
| `Summarizer2.MaxLenRange` | code/backend/summarizer2.py:54 | `max_len` lies in [20, 100]. Inside that range it is 40% of the word count, rounded down. It is 20 below 50 words and 100 from 250 words. |
| `Summarizer2.MaxLenMonotone` | code/backend/summarizer2.py:54 | More words never lower `max_len`. |
| `Summarizer2.MinLenRange` | code/backend/summarizer2.py:55 | 5 ≤ `min_len` ≤ 10, and `max_len - min_len` ≥ 15. `min_len` is 10 once `max_len` ≥ 25. |
| `Summarizer2.WordCountAdds` | code/backend/summarizer2.py:50-51 | The word count of the space-joined texts is the sum of the texts' word counts. |
| `Summarizer2.CreateSummary` | code/backend/summarizer2.py:49-71 | The model gets the joined texts with the clamped bounds, and `min_len` ≥ 5. The result is the model's summary, or the joined texts when the model fails. |
| `SummaryFile.SummariesOfDefined` | code/backend/summarizer.py:24-33 | The loop completes exactly when every category with texts can be joined. |
| `SummaryFile.SummariesOfKeys` | code/backend/summarizer.py:26-33 | When the loop completes, the summaries have a key for exactly the categories with non-empty texts. |
| `SummaryFile.SummariesOfKeysHaveTexts` | code/backend/summarizer.py:26-28 | Every summary key is a category with texts. |
| `SummaryFile.SummariesOfTextsHaveKeys` | code/backend/summarizer.py:26-33 | Every category with texts gets a summary key. |
| `SummaryFile.SummariesOfValues` | code/backend/summarizer2.py:22-31 | With distinct category names, each category with texts holds the summary of its own texts. |
| `SummaryFile.SummariesOfFailureStays` | code/backend/summarizer.py:24-33 | Once a category cannot be joined, the loop fails, whatever follows. |
| `SummaryFile.SummarizedDocSpec` | code/backend/summarizer2.py:12-36 | A document is written exactly when `formatted` is a non-empty object whose categories can all be joined. Its `summary` names exactly the categories with texts, and every other key keeps its value. |
| `SummaryFile.GenerateSummaryForFormatted` | code/backend/summarizer.py:6-38 | The loop over the loaded file writes `SummaryFile.SummarizedDoc`. It writes nothing for a missing file. |
| `Json.Get` | code/backend/main.py:226 | `dict.get` finds a value exactly when the key is present. |
| `Json.Set` | code/backend/main.py:146 | `d[k] = v`: afterwards k maps to v and every other key keeps its value. An existing key keeps its position; a new key is appended. |
| `Json.SetSameValue` | code/backend/main.py:161 | Assigning the value a key already has changes nothing. |
| `Json.SetKeepsDistinct` | code/backend/server.py:104-108 | Assignment keeps keys distinct. |
| `Text.KeepWordChars` | code/backend/main.py:121 | `re.sub(r'[^\w]', '', w)` keeps only word characters and never lengthens the word. A word made only of word characters is unchanged. |
| `Text.KeepWordCharsConcat` | code/backend/main.py:121 | Cleaning distributes over concatenation. With the row above, this fixes cleaning as: keep each word character and drop every other character, in order. |
| `Text.SplitOn` | code/backend/main.py:103 | `split()` gives non-empty words without whitespace. |
| `Text.SplitJoinRoundTrip` | code/backend/main.py:103-104 | Splitting words joined by a whitespace separator gives the words back. |
| `Text.SplitAcrossSpace` | code/backend/summarizer2.py:50-51 | Splitting text that is cut at a whitespace character splits each side on its own. |
| `Text.Dec` | code/backend/main.py:34 | `str(k)` is a non-empty string of digits, with no leading zero. |
| `Text.DecRoundTrip` | code/backend/main.py:34 | Reading back `str(k)` gives k. |
| `Text.DecInjective` | code/backend/main.py:33-35 | Distinct counters have distinct numerals. |
| `Text.CapitalizeIdempotent` | code/backend/main.py:104 | `capitalize` is idempotent. |
| `Text.CapitalizeKeepsShape` | code/backend/main.py:104 | `capitalize` keeps the length and adds no whitespace. |
| `Frontend.SessionNameAsJoin` | code/frontend/public/script.js:36-39 | The session name is the input's whitespace-separated words joined by single dashes. |
| `Frontend.StripThenReplace` | code/frontend/public/script.js:38-39 | Trimming and then replacing each whitespace run by `-` joins the words with dashes. |
| `Frontend.ReplaceRunsAsJoin` | code/frontend/public/script.js:39 | On text with no whitespace at either end, the replacement is the words joined by dashes. |
| `Frontend.SessionNameHasNoSpace` | code/frontend/public/script.js:36-39 | A session name contains no whitespace. |
| `Frontend.SessionNameIdempotent` | code/frontend/public/script.js:68-71 | Normalising a session name again changes nothing. |
| `Frontend.SessionNameEmpty` | code/frontend/public/script.js:40-43 | The session name is empty exactly when the input is empty or all whitespace. |
| `Text.StripTrims` | code/frontend/public/script.js:101 | `trim` keeps a slice of the input. Everything before and after it is whitespace, and the slice neither starts nor ends with whitespace. |
| `Frontend.TopicNameTrims` | code/frontend/public/script.js:100-104 | The topic name is the input with whitespace removed at both ends only. Inner whitespace is kept. |
| `Frontend.NextThemeSwitches` | code/frontend/public/script.js:2-8 | The next theme is 'light' or 'dark'. Each of the two switches to the other, and a missing theme gives 'dark'. |
| `Frontend.ThemeIconNamesNext` | code/frontend/public/script.js:13-26 | The button text names the theme the next toggle switches to. |
| `Frontend.InitialThemeRestores` | code/frontend/public/script.js:29-33 | With nothing saved the page starts 'light'. A theme saved by a toggle is restored. |
| `Frontend.Page.UpdateThemeIcon` | code/frontend/public/script.js:13-26 | When both elements exist: ☀️/"Light" for 'dark', 🌙/"Dark" otherwise. Nothing else changes. |
| `Frontend.Page.Load` | code/frontend/public/script.js:29-33 | The attribute becomes the saved theme, or 'light', and the icon follows it. |
| `Frontend.Page.ToggleTheme` | code/frontend/public/script.js:2-11 | The attribute and the saved value both become the next theme, and the icon follows it. |
| `Frontend.Page.JoinSession` | code/frontend/public/script.js:35-45 | An empty name shows the error and stays. Otherwise the page goes to `/sessions/<name>`. Nothing is sent. |
| `Frontend.Page.CreateSession` | code/frontend/public/script.js:67-98 | An empty name shows the error and sends nothing. Otherwise one request with the normalised name is sent. |
| `Frontend.Page.CreateTopic` | code/frontend/public/script.js:100-129 | An empty trimmed name shows the error and sends nothing. Otherwise one request with the session id and the trimmed name is sent. |

## Left out

- Machine-learning calls are function parameters. These are the sentence embedder with KMeans, the zero-shot classifier, and the two text-generation pipelines. A model that raises gives `None`.
- The classifier's `> 0.3` score threshold is part of the classifier parameter, which gives a label or `None`.
- `generate_title_from_cluster` stops at the first accepted label. Its candidate list only matters to the classifier, so it is not modelled.
- File and JSON I/O are left out. The disk is a map from (session folder, file name) to decoded documents.
  - A file that is not valid JSON, and errors reading a folder, are not modelled. The scripts catch and report those.
  - Documents whose top-level value is not an object are not modelled either.
  - Path traversal through ids that contain path separators is not modelled.
  - So is a session folder that is a plain file.
- `Server.AddInput`: the 500 reply's body is empty. The framework answers an uncaught `KeyError` or `AttributeError` with a plain-text page that server.py does not produce, so that page is not modelled.
- Request bodies whose fields are not strings are left out. Such a field is either missing (`None`) or a string.
- Duplicate keys inside one decoded JSON object are not represented. An object is an insertion-ordered list of fields, assigned through `Json.Set`.
- HTTP routing, the `notify_server` POST and the printed messages are left out. `code/frontend/server.js` serves only the page.
- The polling loop of `main.py` is left out, and so are concurrent access by the server and the scripts. Every handler and every pass is atomic.
- Case and word characters are approximated; whitespace is not. `IsPySpace` and `IsJsSpace` hold the full Unicode whitespace sets of Python's `str.split` and JavaScript's `trim` and `\s`.
  - `lower` and `capitalize` change only ASCII letters.
  - `\w` counts ASCII letters, digits, `_` and every non-ASCII character that is not whitespace.
  - `isdigit` is ASCII digits only.
- `Summarizer2.MaxLen` takes `int(n * 0.4)` as `(2 * n) / 5`. The double 0.4 is slightly above 2/5, so the two are equal only for word counts below 2^50; they first differ at 3 * 2^50. After the clamp to [20, 100] both give 100 from 250 words on, so `max_len` agrees for every word count.
- `SummaryFile.GenerateSummaryForFormatted` takes the loaded file as a parameter, with `None` for a missing file. Reading and writing the file are not modelled.
- `run_with_summary` only calls `generate_summary_for_formatted` with a file name, so it adds nothing to the model.
- `load_inputs_from_json` is modelled through `Processing.InputsValue`.
- `testprogram.py` is not part of this model. It is an experiment script that runs the models at import, and its label order comes from a Python `set`.
- The page's DOM, `localStorage`, `fetch` and the timed fade of `showMessage` are left out.
  - A message is the last text shown.
  - A request is a `Post` value appended to the page's list.
  - The answers to `/createsession` and `/createTopic` are not modelled: no shown server implements those endpoints.
